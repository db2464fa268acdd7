/** The buyer checks of the queue worker: branch codes are normalised, names are matched fuzzily. */
module BuyerCheck {
  import opened Decimal
  import opened EditDistance
  import opened Text

  /** Upper case, as far as a comparison with the head-office synonyms can tell: besides a..z only the
      dotless i and the long s have an ASCII upper case. */
  function UpperRune(c: char): char {
    if 'a' <= c <= 'z' then (c as int - 32) as char
    else if c == '\U{0131}' then 'I'
    else if c == '\U{017F}' then 'S'
    else c
  }

  function ToUpper(s: string): string {
    seq(|s|, i requires 0 <= i < |s| => UpperRune(s[i]))
  }

  const HEAD_OFFICE: set<string> :=
    {"สำนักงานใหญ่", "สนญ.", "สนญ", "HEAD OFFICE", "HQ", "HEADQUARTER", "00000", "0"}

  function NormalizeBranchCode(raw: string): string {
    var code := TrimSpace(raw);
    if ToUpper(code) in HEAD_OFFICE then "00000"
    else if 1 <= |code| <= 5 && AllDigits(code) then Padded(Atoi(code), 5)
    else code
  }

  lemma DigitsStay(s: string)
    requires AllDigits(s)
    ensures TrimSpace(s) == s && ToUpper(s) == s
  {
    TrimIsFixed(s);
  }

  lemma ZerosAreZero(k: nat)
    ensures Padded(0, k) == seq(k, _ => '0')
  {
  }

  /** The only synonyms made of digits are "0" and "00000". */
  lemma DigitSynonym(code: string)
    requires code in HEAD_OFFICE && code != "" && IsDigit(code[0])
    ensures code == Padded(0, |code|)
  {
    assert code[0] == '0';
    assert code == "0" || code == "00000";
    ZerosAreZero(|code|);
  }

  lemma FiveZeros()
    ensures Padded(0, 5) == "00000"
  {
    ZerosAreZero(5);
  }

  lemma ShortCodesFit(code: string)
    requires |code| <= 5 && AllDigits(code)
    ensures Atoi(code) < Pow10(5)
  {
    PaddedAtoi(code);
    Pow10Grows(|code|, 5);
  }

  /** A numeric code of up to five digits always becomes its five-digit form, head office included. */
  lemma NumericBranchCode(code: string)
    requires 1 <= |code| <= 5 && AllDigits(code)
    ensures NormalizeBranchCode(code) == Padded(Atoi(code), 5)
  {
    DigitsStay(code);
    FiveZeros();
    if code in HEAD_OFFICE {
      DigitSynonym(code);
      AtoiPadded(0, |code|);
    }
  }

  /** Whether a code is one of these words, ASCII letter case aside. */
  ghost predicate ReadsAs(code: string, word: string) {
    |code| == |word|
    && forall i | 0 <= i < |code| :: code[i] == word[i] || ('a' <= code[i] <= 'z' && word[i] as int == code[i] as int - 32)
  }

  /** Every name of the head office, in any letter case and with white space around it, becomes 00000. */
  lemma HeadOfficeIsRecognised(raw: string, word: string)
    requires ReadsAs(TrimSpace(raw), word)
    requires word in {"สำนักงานใหญ่", "สนญ.", "สนญ", "HEAD OFFICE", "HQ", "HEADQUARTER", "00000", "0"}
    ensures NormalizeBranchCode(raw) == "00000"
  {
    var code := TrimSpace(raw);
    HasNoSmallLetters(word);
    forall i | 0 <= i < |code| ensures ToUpper(code)[i] == word[i] {
      assert code[i] == word[i] || 'a' <= code[i] <= 'z';
      assert !('a' <= word[i] <= 'z');
    }
    assert ToUpper(code) == word;
  }

  lemma HasNoSmallLetters(word: string)
    requires word in HEAD_OFFICE
    ensures forall i | 0 <= i < |word| :: UpperRune(word[i]) == word[i] && !('a' <= word[i] <= 'z')
  {
  }

  /** A code that is neither a name nor a number of up to five digits is only trimmed. */
  lemma OtherCodesStay(raw: string)
    requires ToUpper(TrimSpace(raw)) !in HEAD_OFFICE
    requires TrimSpace(raw) == "" || |TrimSpace(raw)| > 5 || exists i :: 0 <= i < |TrimSpace(raw)| && !('0' <= TrimSpace(raw)[i] <= '9')
    ensures NormalizeBranchCode(raw) == TrimSpace(raw)
  {
  }

  /** Two numeric codes are taken for the same branch exactly when they are the same number. */
  lemma NumericBranchCodesAgree(c: string, d: string)
    requires 1 <= |c| <= 5 && AllDigits(c)
    requires 1 <= |d| <= 5 && AllDigits(d)
    ensures NormalizeBranchCode(c) == NormalizeBranchCode(d) <==> Atoi(c) == Atoi(d)
  {
    NumericBranchCode(c);
    NumericBranchCode(d);
    ShortCodesFit(c);
    ShortCodesFit(d);
    AtoiPadded(Atoi(c), 5);
    AtoiPadded(Atoi(d), 5);
  }

  lemma NormalizeIsIdempotent(raw: string)
    ensures NormalizeBranchCode(NormalizeBranchCode(raw)) == NormalizeBranchCode(raw)
  {
    var code := TrimSpace(raw);
    if ToUpper(code) in HEAD_OFFICE {
      NumericBranchCode("00000");
      FiveZeros();
      AtoiPadded(0, 5);
    } else if 1 <= |code| <= 5 && AllDigits(code) {
      ShortCodesFit(code);
      NumericBranchCode(Padded(Atoi(code), 5));
      AtoiPadded(Atoi(code), 5);
    } else {
      TrimIsFixed(code);
    }
  }

  datatype Verdict = Passes | Invalid(reason: string)

  ghost predicate Applies(docType: string) {
    docType == "tax_invoice" || docType == ""
  }

  ghost predicate TaxIdOk(buyerTaxId: string, tenantTaxId: string) {
    buyerTaxId == "" || buyerTaxId == tenantTaxId
  }

  ghost predicate BranchOk(buyerCode: string, branchCode: string) {
    var b, t := NormalizeBranchCode(buyerCode), NormalizeBranchCode(branchCode);
    b == "" || t == "" || b == t
  }

  /** At most 15 percent of the longer trimmed name has to be edited. */
  ghost predicate NameOk(buyerName: string, tenantName: string) {
    buyerName == "" || tenantName == ""
    || var b, t := TrimSpace(buyerName), TrimSpace(tenantName); 20 * Distance(b, t) <= 3 * Max(|b|, |t|)
  }

  method ValidateBuyer(docType: string, buyerTaxId: string, buyerCode: string, buyerName: string,
                       tenantTaxId: string, tenantName: string, branchCode: string)
    returns (v: Verdict)
    ensures v == Passes <==> Applies(docType) ==>
              TaxIdOk(buyerTaxId, tenantTaxId) && BranchOk(buyerCode, branchCode) && NameOk(buyerName, tenantName)
    ensures v == Invalid("buyer_tax_id_mismatch") <==> Applies(docType) && !TaxIdOk(buyerTaxId, tenantTaxId)
    ensures v == Invalid("buyer_branch_code_mismatch") <==>
              Applies(docType) && TaxIdOk(buyerTaxId, tenantTaxId) && !BranchOk(buyerCode, branchCode)
    ensures v == Invalid("buyer_name_mismatch") <==>
              Applies(docType) && TaxIdOk(buyerTaxId, tenantTaxId) && BranchOk(buyerCode, branchCode)
              && !NameOk(buyerName, tenantName)
  {
    if docType != "tax_invoice" && docType != "" {
      return Passes;
    }
    if buyerTaxId != "" && buyerTaxId != tenantTaxId {
      return Invalid("buyer_tax_id_mismatch");
    }
    var normBuyer := NormalizeBranchCode(buyerCode);
    var normBranch := NormalizeBranchCode(branchCode);
    if normBuyer != "" && normBranch != "" && normBuyer != normBranch {
      return Invalid("buyer_branch_code_mismatch");
    }
    if buyerName != "" && tenantName != "" {
      var ratio := StringSimilarity(buyerName, tenantName);
      SimilarityMeaning(TrimSpace(buyerName), TrimSpace(tenantName));
      if ratio < 0.85 {
        return Invalid("buyer_name_mismatch");
      }
    }
    return Passes;
  }
}
