/** The columns of the invoices table that duplicate detection works on, and the statements that change
    them. A statement that breaks the partial unique index, a foreign key or some other constraint of the
    table is rejected as a whole. */
module Invoices {
  import opened Records
  import opened Wrappers

  datatype Invoice = Invoice(tenant: Id, vendor: Option<string>, docNo: Option<string>, duplicateOf: Option<Id>, createdAt: nat)

  type Table = map<Id, Invoice>

  function NullIfEmpty(s: string): Option<string> {
    if s == "" then None else Some(s)
  }

  /** A column that an empty OCR value leaves as it is. */
  function Merge(ocr: string, current: Option<string>): Option<string> {
    if ocr == "" then current else Some(ocr)
  }

  predicate HasKey(inv: Invoice) {
    inv.vendor.Some? && inv.docNo.Some?
  }

  predicate SameKey(a: Invoice, b: Invoice) {
    HasKey(a) && HasKey(b) && a.tenant == b.tenant && a.vendor == b.vendor && a.docNo == b.docNo
  }

  predicate IsRoot(inv: Invoice) {
    inv.duplicateOf.None?
  }

  /** uq_invoices_vendor_doc_no: no two roots have the same key. */
  predicate IndexOk(t: Table) {
    forall x, y | x in t && y in t && x != y :: !(IsRoot(t[x]) && IsRoot(t[y]) && SameKey(t[x], t[y]))
  }

  /** The foreign key of duplicate_of. */
  predicate LinksOk(t: Table) {
    forall x | x in t && t[x].duplicateOf.Some? :: t[x].duplicateOf.value in t
  }

  // ---------- Statements ----------

  /** An INSERT or UPDATE that makes `row` the row of `id`; `others` says whether every constraint not
      modelled here accepts it. */
  function Write(t: Table, id: Id, row: Invoice, others: bool): Table {
    var t' := t[id := row];
    if others && IndexOk(t') && LinksOk(t') then t' else t
  }

  function JobRow(current: Invoice, vendor: string, docNo: string, found: Option<Id>): Invoice {
    current.(vendor := Merge(vendor, current.vendor), docNo := Merge(docNo, current.docNo),
          duplicateOf := if found.Some? then found else current.duplicateOf)
  }

  /** UpdateInvoiceData. Without the row it touches nothing. */
  function UpdateInvoiceData(t: Table, id: Id, vendor: string, docNo: string, found: Option<Id>, others: bool): Table {
    if id in t then Write(t, id, JobRow(t[id], vendor, docNo, found), others) else t
  }

  function EditedRow(current: Invoice, vendor: string, docNo: string): Invoice {
    current.(vendor := NullIfEmpty(vendor), docNo := NullIfEmpty(docNo))
  }

  /** FullUpdateInvoice: both key parts are overwritten, and the duplicate link stays. */
  function FullUpdateInvoice(t: Table, id: Id, vendor: string, docNo: string, others: bool): Table {
    if id in t then Write(t, id, EditedRow(t[id], vendor, docNo), others) else t
  }

  predicate Referenced(t: Table, id: Id) {
    exists x | x in t && x != id :: t[x].duplicateOf == Some(id)
  }

  function DeleteInvoice(t: Table, id: Id): Table {
    if id in t && !Referenced(t, id) then t - {id} else t
  }

  /** The rows FindDuplicateInvoice selects from. */
  predicate Matches(t: Table, tenant: Id, vendor: string, docNo: string, exclude: Id, x: Id) {
    && x in t && x != exclude && IsRoot(t[x])
    && t[x].tenant == tenant && t[x].vendor == Some(vendor) && t[x].docNo == Some(docNo)
  }

  /** The row it returns: the earliest of them. */
  predicate IsFirst(t: Table, tenant: Id, vendor: string, docNo: string, exclude: Id, x: Id) {
    && Matches(t, tenant, vendor, docNo, exclude, x)
    && forall y | y in t && Matches(t, tenant, vendor, docNo, exclude, y) :: t[x].createdAt <= t[y].createdAt
  }

  ghost function Found(t: Table, tenant: Id, vendor: string, docNo: string, exclude: Id): Option<Id> {
    if vendor == "" || docNo == "" then None
    else if x :| IsFirst(t, tenant, vendor, docNo, exclude, x) then Some(x)
    else None
  }
}
