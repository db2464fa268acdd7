/** The amount checks behind an invoice: the cross-check of the two OCR engines, the verification wizard
    with its choices, and the server that stores them. The cross-check works on exact reals; wizard and
    server amounts are whole satang, as the NUMERIC(15, 2) columns hold them. */
module VatChecks {

  // ---------- Cross-check of the two engines ----------

  datatype OcrData = OcrData(vendorTaxId: string, totalBeforeVat: real, vatAmount: real, totalAmount: real)

  datatype CrossCheck = CrossCheck(taxIdMatch: bool, totalsMatch: bool, vatMathOk: bool, matched: bool)

  function Abs(x: real): (a: real)
    ensures a == x || a == -x
    ensures a >= 0.0
  {
    if x < 0.0 then -x else x
  }

  const AMOUNT_TOLERANCE := 0.5
  const VAT_MATH_TOLERANCE := 0.02
  const VAT_RATE := 0.07

  /** Vision's total, or 0 when it is taken for a stray small number. */
  function VisionTotal(gpt: OcrData, vision: OcrData): real {
    if gpt.totalAmount > 0.0 && vision.totalAmount > 0.0 && vision.totalAmount < gpt.totalAmount * 0.01 then 0.0
    else vision.totalAmount
  }

  function EnginesAgree(gpt: OcrData, vision: OcrData): bool {
    VisionTotal(gpt, vision) == 0.0
    || (&& Abs(gpt.totalAmount - VisionTotal(gpt, vision)) <= AMOUNT_TOLERANCE
        && (vision.vatAmount == 0.0 || Abs(gpt.vatAmount - vision.vatAmount) <= AMOUNT_TOLERANCE))
  }

  function CrossVerify(gpt: OcrData, vision: OcrData): CrossCheck {
    var taxIdMatch := gpt.vendorTaxId == "" || vision.vendorTaxId == "" || gpt.vendorTaxId == vision.vendorTaxId;
    var arithmeticOk := Abs((gpt.totalBeforeVat + gpt.vatAmount) - gpt.totalAmount) <= AMOUNT_TOLERANCE;
    var totalsMatch := EnginesAgree(gpt, vision)
                       && (gpt.totalBeforeVat > 0.0 && gpt.totalAmount > 0.0 ==> arithmeticOk);
    var vatMathOk := gpt.totalBeforeVat > 0.0
                     ==> Abs(gpt.vatAmount - gpt.totalBeforeVat * VAT_RATE) <= VAT_MATH_TOLERANCE;
    CrossCheck(taxIdMatch, totalsMatch, vatMathOk, taxIdMatch && totalsMatch)
  }

  /** A match, condition by condition: the tax ids do not contradict each other; Vision's total, unless it is
      missing or less than a hundredth of the other, is within 0.5, and then so is its VAT, if it has one; and
      net and VAT add up to the total within 0.5, if both are known. */
  lemma MatchedIff(gpt: OcrData, vision: OcrData)
    ensures CrossVerify(gpt, vision).taxIdMatch <==>
            gpt.vendorTaxId == vision.vendorTaxId || gpt.vendorTaxId == "" || vision.vendorTaxId == ""
    ensures CrossVerify(gpt, vision).totalsMatch <==>
            && (|| vision.totalAmount == 0.0
                || (0.0 < 100.0 * vision.totalAmount < gpt.totalAmount)
                || (&& -0.5 <= gpt.totalAmount - vision.totalAmount <= 0.5
                    && (vision.vatAmount == 0.0 || -0.5 <= gpt.vatAmount - vision.vatAmount <= 0.5)))
            && (gpt.totalBeforeVat <= 0.0 || gpt.totalAmount <= 0.0
                || -0.5 <= gpt.totalBeforeVat + gpt.vatAmount - gpt.totalAmount <= 0.5)
    ensures CrossVerify(gpt, vision).vatMathOk <==>
            gpt.totalBeforeVat <= 0.0 || -2.0 <= 100.0 * gpt.vatAmount - 7.0 * gpt.totalBeforeVat <= 2.0
    ensures CrossVerify(gpt, vision).matched <==> CrossVerify(gpt, vision).taxIdMatch && CrossVerify(gpt, vision).totalsMatch
  {
  }

  /** What can stand in the way of a match: two different tax ids always do; a Vision pass that found
      nothing never does, and then only the engine's own sum counts. */
  lemma WhatBlocksAMatch(gpt: OcrData, vision: OcrData)
    ensures gpt.vendorTaxId != vision.vendorTaxId && gpt.vendorTaxId != "" && vision.vendorTaxId != ""
            ==> !CrossVerify(gpt, vision).matched
    ensures vision.vendorTaxId == "" && vision.totalAmount == 0.0 ==>
              (CrossVerify(gpt, vision).matched <==>
               gpt.totalBeforeVat <= 0.0 || gpt.totalAmount <= 0.0
               || -0.5 <= gpt.totalBeforeVat + gpt.vatAmount - gpt.totalAmount <= 0.5)
    ensures 0.0 < 100.0 * vision.totalAmount < gpt.totalAmount ==> VisionTotal(gpt, vision) == 0.0
  {
  }

  /** Matched amounts with a correct VAT: the total is 107 percent of the net amount to within 0.52, and
      so is Vision's total, if it counts, to within 1.02. */
  lemma MatchedTotalsBound(gpt: OcrData, vision: OcrData)
    requires gpt.totalBeforeVat > 0.0 && gpt.totalAmount > 0.0
    requires CrossVerify(gpt, vision).matched && CrossVerify(gpt, vision).vatMathOk
    ensures Abs(gpt.totalAmount - 1.07 * gpt.totalBeforeVat) <= 0.52
    ensures VisionTotal(gpt, vision) != 0.0 ==> Abs(vision.totalAmount - 1.07 * gpt.totalBeforeVat) <= 1.02
  {
  }

  /** Neither bound can be lowered. */
  lemma BoundsAreReached()
    ensures var gpt := OcrData("", 100.0, 7.02, 107.52); var vision := OcrData("", 0.0, 0.0, 108.02);
            && CrossVerify(gpt, vision).matched && CrossVerify(gpt, vision).vatMathOk
            && gpt.totalAmount - 1.07 * gpt.totalBeforeVat == 0.52
            && vision.totalAmount - 1.07 * gpt.totalBeforeVat == 1.02
  {
  }

  /** x rounded to two places, whichever way ties go. */
  predicate IsRounded(r: real, x: real) {
    Abs(r - x) <= 0.005
  }

  /** Amounts derived from a VAT-inclusive total by the prompt's hint, net = total / 1.07 and VAT = total -
      net, both rounded, pass the VAT check, and pass the totals check as soon as the engines agree. */
  lemma HintedAmountsPass(total: real, net: real, vat: real, taxId: string, vision: OcrData)
    requires IsRounded(net, total / 1.07) && IsRounded(vat, total - total / 1.07)
    ensures var gpt := OcrData(taxId, net, vat, total);
            CrossVerify(gpt, vision).vatMathOk && (CrossVerify(gpt, vision).totalsMatch <==> EnginesAgree(gpt, vision))
  {
  }

  // ---------- The wizard ----------

  type Satang = int

  datatype Amounts = Amounts(beforeVat: Satang, vat: Satang, total: Satang)

  /** r2(before * 0.07): half a satang rounds up. */
  function VatCalc(beforeVat: Satang): Satang {
    (7 * beforeVat + 50) / 100
  }

  /** It is the nearest whole satang. */
  lemma VatCalcIsNearest(beforeVat: Satang)
    ensures 100 * VatCalc(beforeVat) - 50 <= 7 * beforeVat < 100 * VatCalc(beforeVat) + 50
  {
  }

  predicate VatConflict(inv: Amounts) {
    inv.beforeVat > 0 && VatCalc(inv.beforeVat) != inv.vat
  }

  datatype Choices = Choices(vat: Satang, vatResolved: bool, total: Satang, totalResolved: bool)

  function Untouched(inv: Amounts): Choices {
    Choices(inv.vat, false, inv.total, false)
  }

  predicate TotalConflict(inv: Amounts, c: Choices) {
    inv.beforeVat + c.vat != inv.total
  }

  predicate CanVerify(inv: Amounts, c: Choices, itemsResolved: bool) {
    itemsResolved && (!VatConflict(inv) || c.vatResolved)
  }

  datatype Action = ResolveVat(value: Satang) | ResolveTotal(value: Satang)

  /** The buttons for an amount are on screen only while that amount is in conflict. */
  function Choose(inv: Amounts, c: Choices, a: Action): Choices {
    match a
    case ResolveVat(v) =>
      if VatConflict(inv) then Choices(v, true, inv.beforeVat + v, inv.beforeVat + v != inv.total) else c
    case ResolveTotal(v) =>
      if TotalConflict(inv, c) then c.(total := v, totalResolved := true) else c
  }

  function ChooseAll(inv: Amounts, c: Choices, actions: seq<Action>): Choices
    decreases |actions|
  {
    if actions == [] then c else ChooseAll(inv, Choose(inv, c, actions[0]), actions[1..])
  }

  function Payload(inv: Amounts, c: Choices): Amounts {
    Amounts(inv.beforeVat, c.vat, c.total)
  }

  class Wizard {
    const invoice: Amounts
    var chosenVat: Satang
    var vatResolved: bool
    var chosenTotal: Satang
    var totalResolved: bool

    function Chosen(): Choices
      reads this
    {
      Choices(chosenVat, vatResolved, chosenTotal, totalResolved)
    }

    constructor (invoice: Amounts)
      ensures this.invoice == invoice && Chosen() == Untouched(invoice)
    {
      this.invoice := invoice;
      chosenVat, vatResolved, chosenTotal, totalResolved := invoice.vat, false, invoice.total, false;
    }

    method PressVat(value: Satang)
      requires VatConflict(invoice)
      modifies this
      ensures Chosen() == Choose(invoice, old(Chosen()), ResolveVat(value))
    {
      chosenVat, vatResolved := value, true;
      var impliedTotal := invoice.beforeVat + value;
      chosenTotal := impliedTotal;
      totalResolved := impliedTotal != invoice.total;
    }

    method PressTotal(value: Satang)
      requires TotalConflict(invoice, Chosen())
      modifies this
      ensures Chosen() == Choose(invoice, old(Chosen()), ResolveTotal(value))
    {
      chosenTotal, totalResolved := value, true;
    }
  }

  // ---------- The server ----------

  predicate VatMathOk(beforeVat: Satang, vat: Satang) {
    -200 < 7 * beforeVat - 100 * vat < 200
  }

  /** A correction of zero keeps the stored amount. */
  function Keep(correction: Satang, stored: Satang): Satang {
    if correction != 0 then correction else stored
  }

  function Corrected(stored: Amounts, corrections: Amounts): Amounts {
    Amounts(Keep(corrections.beforeVat, stored.beforeVat), Keep(corrections.vat, stored.vat), Keep(corrections.total, stored.total))
  }

  /** The amounts that verifyInvoice starts from: zeros if the row cannot be read. */
  function Read(stored: Amounts, readable: bool): Amounts {
    if readable then stored else Amounts(0, 0, 0)
  }

  class InvoiceRow {
    var amounts: Amounts
    var vatMathOk: bool
    var verified: bool

    constructor (amounts: Amounts)
      ensures this.amounts == amounts && vatMathOk && !verified
    {
      this.amounts, vatMathOk, verified := amounts, true, false;
    }

    /** Each of the three statements may fail: the error of the first is dropped, the others end the request. */
    method Verify(corrections: Amounts, readable: bool, stores: bool, marks: bool) returns (ok: bool)
      modifies this
      ensures amounts == if stores then Corrected(Read(old(amounts), readable), corrections) else old(amounts)
      ensures stores && corrections.beforeVat != 0 ==> amounts.beforeVat == corrections.beforeVat
      ensures stores && corrections.vat != 0 ==> amounts.vat == corrections.vat
      ensures stores && corrections.total != 0 ==> amounts.total == corrections.total
      ensures stores && corrections.beforeVat == 0 ==> amounts.beforeVat == if readable then old(amounts).beforeVat else 0
      ensures stores && corrections.vat == 0 ==> amounts.vat == if readable then old(amounts).vat else 0
      ensures stores && corrections.total == 0 ==> amounts.total == if readable then old(amounts).total else 0
      ensures stores ==> (vatMathOk <==> -200 < 7 * amounts.beforeVat - 100 * amounts.vat < 200)
      ensures vatMathOk == if stores then VatMathOk(amounts.beforeVat, amounts.vat) else old(vatMathOk)
      ensures verified == (old(verified) || ok) && (ok <==> stores && marks)
    {
      var cur := if readable then amounts else Amounts(0, 0, 0);
      var beforeVat, vat, total := cur.beforeVat, cur.vat, cur.total;
      if corrections.beforeVat != 0 {
        beforeVat := corrections.beforeVat;
      }
      if corrections.vat != 0 {
        vat := corrections.vat;
      }
      if corrections.total != 0 {
        total := corrections.total;
      }
      ok := false;
      if stores {
        amounts := Amounts(beforeVat, vat, total);
        vatMathOk := VatMathOk(beforeVat, vat);
        if marks {
          ok, verified := true, true;
        }
      }
    }
  }

  /** A zero correction keeps the stored amount only if the row could be read: what is stored after a failed
      read is right if and only if every amount was corrected or zero anyway. */
  lemma FailedReadIsHarmlessIff(stored: Amounts, corrections: Amounts)
    ensures Corrected(Read(stored, false), corrections) == Corrected(stored, corrections) <==>
            && (corrections.beforeVat != 0 || stored.beforeVat == 0)
            && (corrections.vat != 0 || stored.vat == 0)
            && (corrections.total != 0 || stored.total == 0)
  {
  }

  // ---------- Wizard and server together ----------

  /** What the server stores after any sequence of choices on the invoice, whether or not it can read the row. */
  function Stored(inv: Amounts, actions: seq<Action>, readable: bool): Amounts {
    Corrected(Read(inv, readable), Payload(inv, ChooseAll(inv, Untouched(inv), actions)))
  }

  /** The VAT chosen last, if any choice took effect. */
  function LastVat(inv: Amounts, actions: seq<Action>, otherwise: Satang): Satang
    decreases |actions|
  {
    if actions == [] then otherwise
    else LastVat(inv, actions[1..], if actions[0].ResolveVat? && VatConflict(inv) then actions[0].value else otherwise)
  }

  lemma {:induction false} ChosenVatIsLast(inv: Amounts, c: Choices, actions: seq<Action>)
    ensures ChooseAll(inv, c, actions).vat == LastVat(inv, actions, c.vat)
    decreases |actions|
  {
    if actions != [] {
      ChosenVatIsLast(inv, Choose(inv, c, actions[0]), actions[1..]);
    }
  }

  lemma {:induction false} LastVatWithoutConflict(inv: Amounts, actions: seq<Action>, otherwise: Satang)
    requires !VatConflict(inv)
    ensures LastVat(inv, actions, otherwise) == otherwise
    decreases |actions|
  {
    if actions != [] {
      LastVatWithoutConflict(inv, actions[1..], otherwise);
    }
  }

  /** The computed VAT is within the server's tolerance. */
  lemma ComputedVatPasses(beforeVat: Satang)
    ensures VatMathOk(beforeVat, VatCalc(beforeVat))
  {
  }

  /** Whatever else is chosen, and whether or not the server can read the row: without a VAT conflict, and also
      when the VAT chosen last is the computed one and not zero, the server finds the VAT correct and stores
      that VAT. */
  lemma WizardAgreesWithServer(inv: Amounts, actions: seq<Action>, readable: bool)
    requires inv.beforeVat > 0
    requires !VatConflict(inv)
             || (LastVat(inv, actions, inv.vat) == VatCalc(inv.beforeVat) && VatCalc(inv.beforeVat) != 0)
    ensures var stored := Stored(inv, actions, readable);
            VatMathOk(stored.beforeVat, stored.vat) && stored.vat == VatCalc(inv.beforeVat) && stored.beforeVat == inv.beforeVat
  {
    ChosenVatIsLast(inv, Untouched(inv), actions);
    ComputedVatPasses(inv.beforeVat);
    if !VatConflict(inv) {
      LastVatWithoutConflict(inv, actions, inv.vat);
    }
  }

  /** The chosen VAT is what gets stored exactly when it is not zero, or zero was stored already, or the server
      could not read what was stored. */
  lemma ChosenVatIsStoredIff(inv: Amounts, actions: seq<Action>, readable: bool)
    ensures Stored(inv, actions, readable).vat == LastVat(inv, actions, inv.vat)
            <==> LastVat(inv, actions, inv.vat) != 0 || inv.vat == 0 || !readable
  {
    ChosenVatIsLast(inv, Untouched(inv), actions);
  }

  /** Choosing a computed VAT of zero is lost on the server, which then finds the VAT correct exactly when
      the amount read by the OCR lies between -1 and 2 satang. */
  lemma ZeroChoiceIsLost(inv: Amounts, actions: seq<Action>)
    requires inv.beforeVat > 0 && VatCalc(inv.beforeVat) == 0 && VatConflict(inv)
    requires LastVat(inv, actions, inv.vat) == 0
    ensures var stored := Stored(inv, actions, true);
            stored.vat == inv.vat != 0 && (VatMathOk(stored.beforeVat, stored.vat) <==> -1 <= inv.vat <= 2)
  {
    ChosenVatIsLast(inv, Untouched(inv), actions);
  }

  lemma {:induction false} ChooseAllThen(inv: Amounts, c: Choices, actions: seq<Action>, a: Action)
    ensures ChooseAll(inv, c, actions + [a]) == Choose(inv, ChooseAll(inv, c, actions), a)
    decreases |actions|
  {
    if actions == [] {
      assert ([] + [a])[1..] == [];
    } else {
      assert (actions + [a])[1..] == actions[1..] + [a];
      ChooseAllThen(inv, Choose(inv, c, actions[0]), actions[1..], a);
    }
  }

  lemma {:induction false} VatResolvedIff(inv: Amounts, c: Choices, actions: seq<Action>)
    ensures ChooseAll(inv, c, actions).vatResolved <==> c.vatResolved || (VatConflict(inv) && exists a :: a in actions && a.ResolveVat?)
    decreases |actions|
  {
    if actions != [] {
      VatResolvedIff(inv, Choose(inv, c, actions[0]), actions[1..]);
      assert forall a :: a in actions <==> a == actions[0] || a in actions[1..];
    }
  }

  /** The invoice can be verified exactly if all items are resolved and either its VAT is the computed one or a
      VAT has been chosen. */
  lemma CanVerifyIff(inv: Amounts, actions: seq<Action>, itemsResolved: bool)
    ensures CanVerify(inv, ChooseAll(inv, Untouched(inv), actions), itemsResolved) <==>
            && itemsResolved
            && (inv.beforeVat <= 0 || inv.vat == VatCalc(inv.beforeVat) || exists a :: a in actions && a.ResolveVat?)
  {
    VatResolvedIff(inv, Untouched(inv), actions);
  }

  /** When the last choice is a VAT choice, the total sent is the net amount plus that VAT, and the invoice
      can be verified as far as amounts go. */
  lemma VatChoiceSetsTotal(inv: Amounts, actions: seq<Action>, v: Satang)
    requires VatConflict(inv)
    ensures var c := ChooseAll(inv, Untouched(inv), actions + [ResolveVat(v)]);
            && Payload(inv, c) == Amounts(inv.beforeVat, v, inv.beforeVat + v)
            && CanVerify(inv, c, true) && (c.totalResolved <==> TotalConflict(inv, c))
  {
    ChooseAllThen(inv, Untouched(inv), actions, ResolveVat(v));
  }

  /** When the last choice is a total, and there was one to choose, that total is sent with the VAT chosen
      before. */
  lemma TotalChoiceIsSent(inv: Amounts, actions: seq<Action>, v: Satang)
    requires TotalConflict(inv, ChooseAll(inv, Untouched(inv), actions))
    ensures Payload(inv, ChooseAll(inv, Untouched(inv), actions + [ResolveTotal(v)]))
            == Amounts(inv.beforeVat, LastVat(inv, actions, inv.vat), v)
  {
    ChooseAllThen(inv, Untouched(inv), actions, ResolveTotal(v));
    ChosenVatIsLast(inv, Untouched(inv), actions);
  }
}
