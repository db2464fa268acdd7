/** What several components store alike: row ids, HITL items and their reasons, asset types. */
module Records {

  type Id = nat

  datatype HitlStatus = Pending | Resolved

  /** Why an item needs a human; OtherReason stands for every text that is not one of the two known. */
  datatype Reason = OcrMismatch | ClassificationNeeded | OtherReason

  datatype Hitl = Hitl(item: Id, reason: Reason, status: HitlStatus)

  /** The reason the queue worker writes: it knows only two. */
  function WorkerReason(matched: bool): Reason {
    if matched then ClassificationNeeded else OcrMismatch
  }

  /** A classification may name any type; the tables admit the first three, the rules only the first two. */
  datatype AssetType = Asset | Expense | Unclassified | Unlisted(name: string)
}
