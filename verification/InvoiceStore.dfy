/** Migration 029 and the duplicate step of the queue worker as programs over the invoices table. */
module InvoiceStore {
  import opened Invoices
  import opened Records
  import opened Wrappers
  import opened DuplicateGraph

  // ---------- Migration 029 ----------

  /** Row o has the key of row x, and no row of that key is older. */
  ghost predicate IsOldest(t: Table, x: Id, o: Id)
    requires x in t
  {
    o in t && SameKey(t[o], t[x]) && forall y | y in t && SameKey(t[y], t[x]) :: t[o].createdAt <= t[y].createdAt
  }

  /** What DISTINCT ON selects: for every row with a key the earliest row of that key, the same one for
      the whole key however ties are broken. */
  ghost predicate PicksOriginals(t: Table, pick: map<Id, Id>) {
    && (forall x | x in t && HasKey(t[x]) :: x in pick && IsOldest(t, x, pick[x]))
    && (forall x, y | x in t && y in t && SameKey(t[x], t[y]) :: x in pick && y in pick && pick[x] == pick[y])
  }

  function MarkedRow(t: Table, pick: map<Id, Id>, x: Id): Invoice
    requires x in t
  {
    if HasKey(t[x]) && IsRoot(t[x]) && x in pick && pick[x] != x then t[x].(duplicateOf := Some(pick[x])) else t[x]
  }

  function Marked(t: Table, pick: map<Id, Id>): Table {
    map x | x in t :: MarkedRow(t, pick, x)
  }

  /** On a table without links, as it is when the column has just been added: every key keeps exactly one
      root, its earliest row, all other rows of the key point straight at it, and nothing else changes. */
  lemma MigrationLeavesOneRoot(t: Table, pick: map<Id, Id>, x: Id)
    requires PicksOriginals(t, pick) && (forall y | y in t :: IsRoot(t[y]))
    requires x in t && HasKey(t[x])
    ensures var t' := Marked(t, pick); var o := pick[x];
            && o in t' && IsRoot(t'[o]) && SameKey(t'[o], t'[x])
            && (forall y | y in t' && SameKey(t'[y], t'[x]) ::
                  t'[o].createdAt <= t'[y].createdAt && (y != o ==> t'[y].duplicateOf == Some(o)))
            && (forall y | y in t :: t'[y] == t[y].(duplicateOf := t'[y].duplicateOf) && (!HasKey(t[y]) ==> t'[y] == t[y]))
  {
    var o := pick[x];
    assert SameKey(t[o], t[o]) && SameKey(t[x], t[x]);
    assert pick[o] == o;
  }

  /** The unique index can be created, the links are valid and have no cycle: from here on every run of jobs,
      edits and deletes keeps it that way, the last part if its late links are safe. */
  lemma MigratedRunsStaySound(t: Table, pick: map<Id, Id>, nextId: Id, clock: nat, events: seq<Event>)
    requires PicksOriginals(t, pick) && (forall y | y in t :: IsRoot(t[y]) && y < nextId)
    ensures IndexOk(Marked(t, pick)) && LinksOk(Marked(t, pick))
    ensures var end := Run(State(Marked(t, pick), nextId, clock), events).table;
            IndexOk(end) && LinksOk(end) && (AllSafe(State(Marked(t, pick), nextId, clock), events) ==> Acyclic(end))
  {
    var t' := Marked(t, pick);
    MarkedRootsDiffer(t, pick);
    MarkedIsRanked(t, pick);
    RunKeepsTable(State(t', nextId, clock), events);
    if AllSafe(State(t', nextId, clock), events) {
      RunKeepsInv(State(t', nextId, clock), events);
      RankedIsAcyclic(Run(State(t', nextId, clock), events).table);
    }
  }

  /** The row picked for a key is picked for itself. */
  lemma PickOfPick(t: Table, pick: map<Id, Id>, x: Id)
    requires PicksOriginals(t, pick) && x in t && HasKey(t[x])
    ensures x in pick && pick[x] in t && pick[x] in pick && pick[pick[x]] == pick[x]
  {
    assert SameKey(t[pick[x]], t[x]);
  }

  /** A row that is marked points at a row that is not. */
  lemma MarkedPointsAtRoot(t: Table, pick: map<Id, Id>, x: Id)
    requires PicksOriginals(t, pick) && (forall y | y in t :: IsRoot(t[y])) && x in t
    ensures var t' := Marked(t, pick);
      t'[x].duplicateOf.Some? ==> t'[x].duplicateOf.value in t' && IsRoot(t'[t'[x].duplicateOf.value])
  {
    if HasKey(t[x]) {
      PickOfPick(t, pick, x);
    }
  }

  /** Links that lead straight to roots have no cycle. */
  lemma StarIsRanked(t: Table)
    requires forall x | x in t && t[x].duplicateOf.Some? :: t[x].duplicateOf.value in t && IsRoot(t[t[x].duplicateOf.value])
    ensures Ranked(t)
  {
    var rank: Id -> nat := y => if y in t && t[y].duplicateOf.Some? then 1 else 0;
    assert RankedBy(t, rank);
  }

  lemma MarkedIsRanked(t: Table, pick: map<Id, Id>)
    requires PicksOriginals(t, pick) && (forall y | y in t :: IsRoot(t[y]))
    ensures Ranked(Marked(t, pick))
  {
    var t' := Marked(t, pick);
    forall x | x in t' ensures t'[x].duplicateOf.Some? ==> t'[x].duplicateOf.value in t' && IsRoot(t'[t'[x].duplicateOf.value]) {
      MarkedPointsAtRoot(t, pick, x);
    }
    StarIsRanked(t');
  }

  lemma MarkedRootsDiffer(t: Table, pick: map<Id, Id>)
    requires PicksOriginals(t, pick) && (forall y | y in t :: IsRoot(t[y]))
    ensures IndexOk(Marked(t, pick)) && LinksOk(Marked(t, pick))
  {
    var t' := Marked(t, pick);
    forall x, y | x in t' && y in t' && x != y && SameKey(t'[x], t'[y]) ensures !(IsRoot(t'[x]) && IsRoot(t'[y])) {
      assert pick[x] == pick[y];
    }
  }

  // ---------- The store ----------

  predicate Precedes(t: Table, a: Id, b: Id) {
    a in t && b in t && (t[a].createdAt < t[b].createdAt || (t[a].createdAt == t[b].createdAt && a <= b))
  }

  /** Row o is the earliest of the key of row x. */
  ghost predicate EarliestIs(t: Table, x: Id, o: Id) {
    && x in t && HasKey(t[x]) && o in t && SameKey(t[o], t[x])
    && forall y | y in t && SameKey(t[y], t[x]) :: Precedes(t, o, y)
  }

  lemma SameEarliest(t: Table, x: Id, y: Id, o: Id, p: Id)
    requires EarliestIs(t, x, o) && EarliestIs(t, y, p) && SameKey(t[x], t[y])
    ensures o == p
  {
    assert Precedes(t, o, p) && Precedes(t, p, o);
  }

  lemma EarliestAreOriginals(t: Table, pick: map<Id, Id>)
    requires pick.Keys == (set x | x in t && HasKey(t[x])) && forall x | x in pick :: EarliestIs(t, x, pick[x])
    ensures PicksOriginals(t, pick)
  {
    forall x, y | x in t && y in t && SameKey(t[x], t[y]) ensures x in pick && y in pick && pick[x] == pick[y] {
      SameEarliest(t, x, y, pick[x], pick[y]);
    }
    forall x | x in t && HasKey(t[x]) ensures x in pick && IsOldest(t, x, pick[x]) {
      assert EarliestIs(t, x, pick[x]);
    }
  }

  /** The key of the row belongs to another row that is no duplicate, while this one is none either. */
  ghost predicate KeyTaken(t: Table, id: Id, row: Invoice) {
    row.duplicateOf == None && row.vendor != None && row.docNo != None
    && exists x :: x in t && x != id && t[x].duplicateOf == None
                   && t[x].tenant == row.tenant && t[x].vendor == row.vendor && t[x].docNo == row.docNo
  }

  /** What the unique index makes of a write. */
  lemma AcceptedIff(t: Table, id: Id, row: Invoice, others: bool)
    requires IndexOk(t) && LinksOk(t) && (row.duplicateOf.Some? ==> row.duplicateOf.value in t)
    ensures Write(t, id, row, others) == if others && !KeyTaken(t, id, row) then t[id := row] else t
    ensures Taken(t, id, row) <==> KeyTaken(t, id, row)
  {
    IndexRejectsIff(t, id, row);
    assert LinksOk(t[id := row]);
  }

  predicate IsOtherRoot(t: Table, x: Id, tenant: Id, vendor: string, docNo: string, exclude: Id)
    requires x in t
  {
    x != exclude && t[x].duplicateOf == None && t[x].tenant == tenant && t[x].vendor == Some(vendor) && t[x].docNo == Some(docNo)
  }

  /** The unique index and the foreign key of migration 029, spelled out. */
  lemma ConstraintsAre(t: Table)
    ensures IndexOk(t) <==>
            forall x, y | x in t && y in t && x != y && t[x].duplicateOf == None && t[y].duplicateOf == None
                          && t[x].vendor != None && t[x].docNo != None ::
              !(t[x].tenant == t[y].tenant && t[x].vendor == t[y].vendor && t[x].docNo == t[y].docNo)
    ensures LinksOk(t) <==> forall x | x in t && t[x].duplicateOf != None :: t[x].duplicateOf.value in t
  {
  }

  lemma OneMatch(t: Table, tenant: Id, vendor: string, docNo: string, exclude: Id, x: Id, y: Id)
    requires IndexOk(t) && Matches(t, tenant, vendor, docNo, exclude, x) && Matches(t, tenant, vendor, docNo, exclude, y)
    ensures x == y
  {
    assert SameKey(t[x], t[y]);
  }

  class Store {
    var rows: Table
    var nextId: Id
    var clock: nat

    constructor ()
      ensures State(rows, nextId, clock) == INITIAL
    {
      rows, nextId, clock := map[], 0, 0;
    }

    /** The earliest row of a key, ties broken by id. */
    method EarliestOfKey(x: Id) returns (o: Id)
      requires x in rows && HasKey(rows[x])
      ensures o in rows && SameKey(rows[o], rows[x])
      ensures forall y | y in rows && SameKey(rows[y], rows[x]) :: Precedes(rows, o, y)
    {
      o := x;
      var rest := rows.Keys;
      while rest != {}
        invariant rest <= rows.Keys
        invariant o in rows && SameKey(rows[o], rows[x])
        invariant forall y | y in rows.Keys - rest && SameKey(rows[y], rows[x]) :: Precedes(rows, o, y)
      {
        var y :| y in rest;
        if SameKey(rows[y], rows[x]) && Precedes(rows, y, o) {
          o := y;
        }
        rest := rest - {y};
      }
    }

    /** The UPDATE of migration 029. */
    method MarkDuplicates() returns (ghost pick: map<Id, Id>)
      modifies this`rows
      ensures PicksOriginals(old(rows), pick) && rows == Marked(old(rows), pick)
    {
      var originals := PickOriginals();
      pick := originals;
      rows := map x | x in rows :: MarkedRow(rows, originals, x);
    }

    /** Its DISTINCT ON. */
    method PickOriginals() returns (originals: map<Id, Id>)
      ensures PicksOriginals(rows, originals)
    {
      originals := map[];
      var rest := set x | x in rows && HasKey(rows[x]);
      ghost var keyed := rest;
      while rest != {}
        invariant rest <= keyed && originals.Keys == keyed - rest
        invariant forall x | x in originals :: EarliestIs(rows, x, originals[x])
      {
        var x :| x in rest;
        var o := EarliestOfKey(x);
        originals := originals[x := o];
        rest := rest - {x};
      }
      EarliestAreOriginals(rows, originals);
    }

    method FindDuplicateInvoice(tenant: Id, vendor: string, docNo: string, exclude: Id) returns (found: Option<Id>)
      requires IndexOk(rows)
      ensures found == Found(rows, tenant, vendor, docNo, exclude)
      ensures found.None? <==>
                vendor == "" || docNo == "" || forall x | x in rows :: !IsOtherRoot(rows, x, tenant, vendor, docNo, exclude)
      ensures found.Some? ==>
                && found.value in rows && IsOtherRoot(rows, found.value, tenant, vendor, docNo, exclude)
                && forall y | y in rows && IsOtherRoot(rows, y, tenant, vendor, docNo, exclude) ::
                     rows[found.value].createdAt <= rows[y].createdAt
    {
      found := None;
      if vendor == "" || docNo == "" {
        return;
      }
      var rest := rows.Keys;
      while rest != {}
        invariant rest <= rows.Keys
        invariant found.Some? ==> Matches(rows, tenant, vendor, docNo, exclude, found.value)
        invariant forall y | y in rows.Keys - rest && Matches(rows, tenant, vendor, docNo, exclude, y) ::
                    found.Some? && rows[found.value].createdAt <= rows[y].createdAt
      {
        var y :| y in rest;
        if Matches(rows, tenant, vendor, docNo, exclude, y)
           && (found.None? || rows[y].createdAt < rows[found.value].createdAt) {
          found := Some(y);
        }
        rest := rest - {y};
      }
      if found.Some? {
        var x := found.value;
        assert IsFirst(rows, tenant, vendor, docNo, exclude, x);
        forall z | IsFirst(rows, tenant, vendor, docNo, exclude, z) ensures z == x {
          OneMatch(rows, tenant, vendor, docNo, exclude, x, z);
        }
      }
    }

    /** The duplicate step of a job: look up, then write what the OCR read together with the link. */
    method LinkAndUpdate(id: Id, tenant: Id, vendor: string, docNo: string, others: bool) returns (duplicateOf: Option<Id>)
      requires IndexOk(rows) && (id in rows ==> rows[id].tenant == tenant)
      modifies this`rows
      ensures rows == AfterJob(old(rows), id, vendor, docNo, true, others)
      ensures id in old(rows) ==> duplicateOf == LinkOf(old(rows), id, vendor, docNo, true)
      ensures id in old(rows) && LinksOk(old(rows)) ==>
                var before := old(rows)[id];
                var row := before.(vendor := if vendor != "" then Some(vendor) else before.vendor,
                                   docNo := if docNo != "" then Some(docNo) else before.docNo,
                                   duplicateOf := if duplicateOf.Some? then duplicateOf else before.duplicateOf);
                rows == if others && !KeyTaken(old(rows), id, row) then old(rows)[id := row] else old(rows)
      ensures id !in old(rows) ==> rows == old(rows)
    {
      duplicateOf := None;
      if vendor != "" && docNo != "" {
        duplicateOf := FindDuplicateInvoice(tenant, vendor, docNo, id);
      }
      if id in rows {
        ghost var before, row := rows, JobRow(rows[id], vendor, docNo, duplicateOf);
        rows := Write(rows, id, JobRow(rows[id], vendor, docNo, duplicateOf), others);
        if LinksOk(before) {
          FoundIsSafe(before, tenant, vendor, docNo, id);
          AcceptedIff(before, id, row, others);
        }
      }
    }

    method CreateInvoice(tenant: Id, vendor: string, docNo: string, others: bool)
      modifies this
      ensures var row := Invoice(tenant, if vendor == "" then None else Some(vendor), if docNo == "" then None else Some(docNo), None, old(clock));
        IndexOk(old(rows)) && LinksOk(old(rows)) ==>
          rows == if others && !KeyTaken(old(rows), old(nextId), row) then old(rows)[old(nextId) := row] else old(rows)
      ensures State(rows, nextId, clock) == Apply(old(State(rows, nextId, clock)), Create(tenant, vendor, docNo, others))
    {
      rows := Write(rows, nextId, Invoice(tenant, NullIfEmpty(vendor), NullIfEmpty(docNo), None, clock), others);
      ghost var row := Invoice(tenant, NullIfEmpty(vendor), NullIfEmpty(docNo), None, clock);
      if IndexOk(old(rows)) && LinksOk(old(rows)) {
        AcceptedIff(old(rows), nextId, row, others);
      }
      nextId, clock := nextId + 1, clock + 1;
    }

    method UpdateInvoice(id: Id, vendor: string, docNo: string, others: bool) returns (ok: bool)
      modifies this`rows
      ensures rows == FullUpdateInvoice(old(rows), id, vendor, docNo, others)
      ensures IndexOk(old(rows)) && LinksOk(old(rows)) ==>
                (ok <==> id in old(rows) && others && !Taken(old(rows), id, EditedRow(old(rows)[id], vendor, docNo)))
      ensures IndexOk(old(rows)) && LinksOk(old(rows)) && id in old(rows) ==>
                var row := old(rows)[id].(vendor := if vendor == "" then None else Some(vendor),
                                          docNo := if docNo == "" then None else Some(docNo));
                && (ok <==> others && !KeyTaken(old(rows), id, row))
                && rows == if ok then old(rows)[id := row] else old(rows)
    {
      ok := false;
      if id in rows {
        var row := EditedRow(rows[id], vendor, docNo);
        ghost var before := rows;
        ok := others && IndexOk(rows[id := row]) && LinksOk(rows[id := row]);
        rows := Write(rows, id, row, others);
        if IndexOk(before) && LinksOk(before) {
          AcceptedIff(before, id, row, others);
        }
      }
    }

    method DeleteInvoiceRow(id: Id) returns (ok: bool)
      modifies this`rows
      ensures rows == DeleteInvoice(old(rows), id)
      ensures ok <==> id in old(rows) && forall x | x in old(rows) && x != id :: old(rows)[x].duplicateOf != Some(id)
      ensures rows == if ok then old(rows) - {id} else old(rows)
    {
      ok := id in rows && !Referenced(rows, id);
      if ok {
        rows := rows - {id};
      }
    }
  }
}
