/** The self-learning classifier: rules of the tenant, newest first, then two fixed keyword lists, then an
    oracle whose confident answers become rules. */
module Classifier {
  import opened Records
  import opened Wrappers

  datatype Rule = Rule(tenant: Id, keyword: string, kind: AssetType, confidence: real)

  /** What the oracle said. */
  datatype Answer = Answer(kind: AssetType, confidence: real, keyword: string)

  /** Where a verdict comes from; the item stores ByOracle as "ai" and the others as "rule". */
  datatype Source = ByRule | ByKeywordList | ByOracle | ByDefault

  datatype Verdict = Verdict(kind: AssetType, source: Source, confidence: real, keyword: string)

  /** Lower-casing, rune by rune: any function will do. */
  type Folding = char -> char

  function Lower(fold: Folding, s: string): string {
    seq(|s|, i requires 0 <= i < |s| => fold(s[i]))
  }

  predicate StandsAt(text: string, part: string, i: nat) {
    i + |part| <= |text| && text[i..i + |part|] == part
  }

  predicate Contains(text: string, part: string) {
    exists i | 0 <= i <= |text| - |part| :: StandsAt(text, part, i)
  }

  predicate Occurs(fold: Folding, desc: string, keyword: string) {
    Contains(Lower(fold, desc), Lower(fold, keyword))
  }

  const ASSET_KEYWORDS: seq<string> := [
    "computer", "คอมพิวเตอร์", "notebook", "laptop", "desktop", "printer", "เครื่องพิมพ์", "scanner", "projector",
    "server", "switch", "router", "network", "monitor", "จอ", "camera", "กล้อง", "vehicle", "รถ", "car", "truck",
    "machinery", "เครื่องจักร", "equipment", "furniture", "เฟอร์นิเจอร์", "chair", "desk", "table",
    "phone", "โทรศัพท์", "tablet", "air", "แอร์", "conditioner"]

  const EXPENSE_KEYWORDS: seq<string> := [
    "paper", "กระดาษ", "stationery", "เครื่องเขียน", "fuel", "น้ำมัน", "gasoline",
    "service", "ค่าบริการ", "maintenance", "ซ่อม", "electric", "ไฟฟ้า", "utility", "water", "น้ำ",
    "internet", "อินเตอร์เน็ต", "postage", "courier", "ขนส่ง", "food", "อาหาร", "meal",
    "advertising", "โฆษณา", "insurance", "ประกัน"]

  /** The first keyword of the list that occurs. */
  function FirstOf(fold: Folding, desc: string, keywords: seq<string>): Option<string> {
    if keywords == [] then None
    else if Occurs(fold, desc, keywords[0]) then Some(keywords[0])
    else FirstOf(fold, desc, keywords[1..])
  }

  /** The asset keywords come before the expense keywords. */
  function ByKeywords(fold: Folding, desc: string): Verdict {
    match (FirstOf(fold, desc, ASSET_KEYWORDS), FirstOf(fold, desc, EXPENSE_KEYWORDS))
    case (Some(k), _) => Verdict(Asset, ByKeywordList, 0.92, k)
    case (None, Some(k)) => Verdict(Expense, ByKeywordList, 0.88, k)
    case (None, None) => DEFAULT
  }

  const DEFAULT := Verdict(Unclassified, ByDefault, 0.3, "")

  // ---------- The rules table ----------

  /** VARCHAR(255) takes a longer text if all of the excess is blank, and cuts it off. */
  predicate Fits(keyword: string) {
    forall i | 255 <= i < |keyword| :: keyword[i] == ' '
  }

  function Cut(keyword: string): string {
    if |keyword| <= 255 then keyword else keyword[..255]
  }

  /** The column constraints: a non-empty keyword without U+0000 that fits, one of two types, and a confidence
      that NUMERIC(5, 4) can hold. */
  predicate Storable(r: Rule) {
    && r.keyword != "" && '\0' !in r.keyword && Fits(r.keyword)
    && (r.kind == Asset || r.kind == Expense)
    && -9.99995 < r.confidence < 9.99995
  }

  /** What NUMERIC(5, 4) keeps of a confidence: the nearest of its values, a half away from zero. */
  function Rounded(x: real): real {
    if x >= 0.0 then (x * 10000.0 + 0.5).Floor as real / 10000.0 else -((-x * 10000.0 + 0.5).Floor as real / 10000.0)
  }

  function Stored(r: Rule): Rule {
    r.(confidence := Rounded(r.confidence), keyword := Cut(r.keyword))
  }

  /** UNIQUE (tenant_id, keyword), letter case included, on the keyword as it is stored. */
  predicate KeywordTaken(rules: seq<Rule>, r: Rule) {
    exists i | 0 <= i < |rules| :: rules[i].tenant == r.tenant && rules[i].keyword == Cut(r.keyword)
  }

  /** `inserts` says whether the statement gets through to the table at all. */
  function CreateRule(rules: seq<Rule>, r: Rule, inserts: bool): seq<Rule> {
    if inserts && Storable(r) && !KeywordTaken(rules, r) then rules + [Stored(r)] else rules
  }

  ghost predicate TableOk(rules: seq<Rule>) {
    forall i | 0 <= i < |rules| :: rules[i].kind in {Asset, Expense}
  }

  predicate RuleMatches(fold: Folding, r: Rule, tenant: Id, desc: string) {
    r.tenant == tenant && Occurs(fold, desc, r.keyword)
  }

  /** The newest rule of the tenant that occurs in the description; rules are stored oldest first. */
  function LookUp(fold: Folding, rules: seq<Rule>, tenant: Id, desc: string): Option<Rule> {
    if rules == [] then None
    else if RuleMatches(fold, rules[|rules| - 1], tenant, desc) then Some(rules[|rules| - 1])
    else LookUp(fold, rules[..|rules| - 1], tenant, desc)
  }

  /** The rules a call sees: none if the query fails. */
  function Seen(rules: seq<Rule>, readable: bool): seq<Rule> {
    if readable then rules else []
  }

  /** Whether the decision is left to the oracle. */
  predicate NeedsOracle(fold: Folding, seen: seq<Rule>, tenant: Id, desc: string) {
    LookUp(fold, seen, tenant, desc).None? && ByKeywords(fold, desc) == DEFAULT
  }

  function Learned(tenant: Id, a: Answer): Rule {
    Rule(tenant, a.keyword, a.kind, a.confidence)
  }

  /** The verdict, given what the oracle would say: None when it is not configured or fails. */
  function Judge(fold: Folding, seen: seq<Rule>, tenant: Id, desc: string, answer: Option<Answer>): Verdict {
    match LookUp(fold, seen, tenant, desc)
    case Some(r) => Verdict(r.kind, ByRule, r.confidence, r.keyword)
    case None =>
      if ByKeywords(fold, desc) != DEFAULT then ByKeywords(fold, desc)
      else if answer.None? then DEFAULT
      else Verdict(answer.value.kind, ByOracle, answer.value.confidence, answer.value.keyword)
  }

  /** What a call meets: whether its rules query works, what the oracle would say, and whether its insert, if
      it makes one, gets through. */
  datatype Call = Call(tenant: Id, desc: string, readable: bool, answer: Option<Answer>, inserts: bool)

  function RulesAfter(fold: Folding, rules: seq<Rule>, c: Call): seq<Rule> {
    if NeedsOracle(fold, Seen(rules, c.readable), c.tenant, c.desc)
       && c.answer.Some? && c.answer.value.confidence >= 0.8 && c.answer.value.keyword != ""
    then CreateRule(rules, Learned(c.tenant, c.answer.value), c.inserts)
    else rules
  }

  class Service {
    var rules: seq<Rule>
    const fold: Folding

    constructor (fold: Folding)
      ensures rules == [] && this.fold == fold
    {
      rules := [];
      this.fold := fold;
    }

    method AddRule(r: Rule, inserts: bool) returns (ok: bool)
      modifies this
      ensures rules == CreateRule(old(rules), r, inserts)
      ensures ok <==>
                && inserts && r.keyword != "" && '\0' !in r.keyword
                && (|r.keyword| <= 255 || forall i | 255 <= i < |r.keyword| :: r.keyword[i] == ' ')
                && (r.kind == Asset || r.kind == Expense) && -9.99995 < r.confidence < 9.99995
                && forall i | 0 <= i < |old(rules)| && old(rules)[i].tenant == r.tenant ::
                     old(rules)[i].keyword != if |r.keyword| <= 255 then r.keyword else r.keyword[..255]
      ensures ok <==> rules == old(rules) + [Stored(r)]
    {
      ok := inserts && Storable(r) && !KeywordTaken(rules, r);
      if ok {
        rules := rules + [Stored(r)];
      }
    }

    method FindKeyword(desc: string, keywords: seq<string>) returns (found: Option<string>)
      ensures found == FirstOf(fold, desc, keywords)
    {
      found := None;
      for k := 0 to |keywords|
        invariant FirstOf(fold, desc, keywords) == FirstOf(fold, desc, keywords[k..])
      {
        assert keywords[k..][0] == keywords[k] && keywords[k..][1..] == keywords[k + 1..];
        if Occurs(fold, desc, keywords[k]) {
          return Some(keywords[k]);
        }
      }
    }

    method ClassifyByKeywords(desc: string) returns (v: Verdict)
      ensures v == ByKeywords(fold, desc)
    {
      var asset := FindKeyword(desc, ASSET_KEYWORDS);
      if asset.Some? {
        return Verdict(Asset, ByKeywordList, 0.92, asset.value);
      }
      var expense := FindKeyword(desc, EXPENSE_KEYWORDS);
      if expense.Some? {
        return Verdict(Expense, ByKeywordList, 0.88, expense.value);
      }
      v := DEFAULT;
    }

    /** The loop over the rules of the tenant. */
    method FindRule(seen: seq<Rule>, tenant: Id, desc: string) returns (found: Option<Rule>)
      ensures found == LookUp(fold, seen, tenant, desc)
    {
      found := None;
      var n := |seen|;
      assert seen[..n] == seen;
      while n > 0
        invariant 0 <= n <= |seen|
        invariant LookUp(fold, seen, tenant, desc) == LookUp(fold, seen[..n], tenant, desc)
      {
        assert seen[..n][..n - 1] == seen[..n - 1];
        if RuleMatches(fold, seen[n - 1], tenant, desc) {
          return Some(seen[n - 1]);
        }
        n := n - 1;
      }
    }

    method ClassifyWithDB(c: Call) returns (v: Verdict)
      modifies this
      ensures v == Judge(fold, Seen(old(rules), c.readable), c.tenant, c.desc, c.answer)
      ensures rules == RulesAfter(fold, old(rules), c)
    {
      var rule := FindRule(if c.readable then rules else [], c.tenant, c.desc);
      if rule.Some? {
        return Verdict(rule.value.kind, ByRule, rule.value.confidence, rule.value.keyword);
      }
      v := ClassifyByKeywords(c.desc);
      if v.kind != Unclassified || c.answer.None? {
        return;
      }
      var a := c.answer.value;
      if a.confidence >= 0.8 && a.keyword != "" {
        var _ := AddRule(Learned(c.tenant, a), c.inserts);
      }
      v := Verdict(a.kind, ByOracle, a.confidence, a.keyword);
    }
  }

  // ---------- First match ----------

  /** The rule found is the newest that matches, and none is found only when none matches. */
  lemma {:induction false} LookUpFindsNewest(fold: Folding, rules: seq<Rule>, tenant: Id, desc: string)
    ensures var found := LookUp(fold, rules, tenant, desc);
            if found.None? then forall i | 0 <= i < |rules| :: !RuleMatches(fold, rules[i], tenant, desc)
            else exists i :: 0 <= i < |rules| && rules[i] == found.value && RuleMatches(fold, rules[i], tenant, desc)
                             && forall j | i < j < |rules| :: !RuleMatches(fold, rules[j], tenant, desc)
    decreases |rules|
  {
    if rules != [] {
      var n := |rules| - 1;
      var rest := rules[..n];
      assert forall j | 0 <= j < n :: rules[j] == rest[j];
      if RuleMatches(fold, rules[n], tenant, desc) {
        assert rules[n] == LookUp(fold, rules, tenant, desc).value;
      } else {
        LookUpFindsNewest(fold, rest, tenant, desc);
      }
    }
  }

  /** A keyword occurs where the description reads the same, letter case aside. */
  lemma OccursIff(fold: Folding, desc: string, keyword: string)
    ensures Occurs(fold, desc, keyword) <==>
            exists i :: 0 <= i <= |desc| - |keyword| && ReadsAt(fold, desc, keyword, i)
  {
    var text, part := Lower(fold, desc), Lower(fold, keyword);
    forall i | 0 <= i <= |desc| - |keyword| ensures StandsAt(text, part, i) <==> ReadsAt(fold, desc, keyword, i) {
      StandsAtIff(text, part, i);
      if ReadsAt(fold, desc, keyword, i) {
        forall k | 0 <= k < |part| ensures text[i + k] == part[k] {
          assert fold(desc[i + k]) == fold(keyword[k]);
        }
      }
      if StandsAt(text, part, i) {
        forall k | 0 <= k < |keyword| ensures fold(desc[i + k]) == fold(keyword[k]) {
          assert text[i + k] == part[k];
        }
      }
    }
  }

  lemma StandsAtIff(text: string, part: string, i: nat)
    requires i + |part| <= |text|
    ensures StandsAt(text, part, i) <==> forall k | 0 <= k < |part| :: text[i + k] == part[k]
  {
    var there := text[i..i + |part|];
    assert forall k | 0 <= k < |part| :: there[k] == text[i + k];
  }

  ghost predicate ReadsAt(fold: Folding, desc: string, keyword: string, i: int)
    requires 0 <= i <= |desc| - |keyword|
  {
    forall k | 0 <= k < |keyword| :: fold(desc[i + k]) == fold(keyword[k])
  }

  ghost predicate NoRuleOccurs(fold: Folding, rules: seq<Rule>, tenant: Id, desc: string) {
    forall i | 0 <= i < |rules| && rules[i].tenant == tenant :: !Occurs(fold, desc, rules[i].keyword)
  }

  ghost predicate SomeOccurs(fold: Folding, desc: string, keywords: seq<string>) {
    exists i :: 0 <= i < |keywords| && Occurs(fold, desc, keywords[i])
  }

  /** The verdict when no rule decides, case by case: a word of the asset list makes an asset; failing that one
      of the expense list an expense; failing that the oracle's answer stands, and without one it is pending. */
  lemma WithoutRules(fold: Folding, seen: seq<Rule>, tenant: Id, desc: string, answer: Option<Answer>)
    requires NoRuleOccurs(fold, seen, tenant, desc)
    ensures var v := Judge(fold, seen, tenant, desc, answer);
      && (SomeOccurs(fold, desc, ASSET_KEYWORDS) ==> v.kind == Asset && v.source == ByKeywordList && v.confidence == 0.92)
      && (!SomeOccurs(fold, desc, ASSET_KEYWORDS) && SomeOccurs(fold, desc, EXPENSE_KEYWORDS) ==>
            v.kind == Expense && v.source == ByKeywordList && v.confidence == 0.88)
      && (!SomeOccurs(fold, desc, ASSET_KEYWORDS) && !SomeOccurs(fold, desc, EXPENSE_KEYWORDS) ==>
            v == match answer
                 case Some(a) => Verdict(a.kind, ByOracle, a.confidence, a.keyword)
                 case None => Verdict(Unclassified, ByDefault, 0.3, ""))
  {
    LookUpFindsNewest(fold, seen, tenant, desc);
    FirstOfIsFirst(fold, desc, ASSET_KEYWORDS);
    FirstOfIsFirst(fold, desc, EXPENSE_KEYWORDS);
  }

  /** And when one does: the newest of the tenant's rules that occurs gives type, confidence and keyword. */
  lemma WithRule(fold: Folding, seen: seq<Rule>, tenant: Id, desc: string, answer: Option<Answer>, i: nat)
    requires i < |seen| && seen[i].tenant == tenant && Occurs(fold, desc, seen[i].keyword)
    requires forall j | i < j < |seen| && seen[j].tenant == tenant :: !Occurs(fold, desc, seen[j].keyword)
    ensures Judge(fold, seen, tenant, desc, answer) == Verdict(seen[i].kind, ByRule, seen[i].confidence, seen[i].keyword)
  {
    LookUpFindsNewest(fold, seen, tenant, desc);
    var found := LookUp(fold, seen, tenant, desc);
    assert RuleMatches(fold, seen[i], tenant, desc);
    var k :| 0 <= k < |seen| && seen[k] == found.value && RuleMatches(fold, seen[k], tenant, desc)
             && forall j | k < j < |seen| :: !RuleMatches(fold, seen[j], tenant, desc);
    assert k == i;
  }

  /** "computer" is a word of the first list, "paper" one of the second. */
  lemma TwoOfTheKeywords()
    ensures ASSET_KEYWORDS[0] == "computer" && EXPENSE_KEYWORDS[0] == "paper"
  {
  }

  /** The keyword reported is the first of its list that occurs, and none is only when none occurs. */
  lemma {:induction false} FirstOfIsFirst(fold: Folding, desc: string, keywords: seq<string>)
    ensures var found := FirstOf(fold, desc, keywords);
            if found.None? then forall i | 0 <= i < |keywords| :: !Occurs(fold, desc, keywords[i])
            else exists i :: 0 <= i < |keywords| && keywords[i] == found.value && Occurs(fold, desc, keywords[i])
                             && forall j | 0 <= j < i :: !Occurs(fold, desc, keywords[j])
    decreases |keywords|
  {
    if keywords != [] && !Occurs(fold, desc, keywords[0]) {
      var rest := keywords[1..];
      FirstOfIsFirst(fold, desc, rest);
      assert forall j | 0 < j < |keywords| :: keywords[j] == rest[j - 1];
      if FirstOf(fold, desc, rest).Some? {
        var i :| 0 <= i < |rest| && rest[i] == FirstOf(fold, desc, rest).value && Occurs(fold, desc, rest[i])
                 && forall j | 0 <= j < i :: !Occurs(fold, desc, rest[j]);
        assert keywords[i + 1] == rest[i];
      }
    }
  }

  lemma MatchSettles(fold: Folding, rules: seq<Rule>, tenant: Id, desc: string, i: nat)
    requires i < |rules| && RuleMatches(fold, rules[i], tenant, desc)
    ensures LookUp(fold, rules, tenant, desc).Some?
  {
    LookUpFindsNewest(fold, rules, tenant, desc);
  }

  // ---------- Learning ----------

  /** An answer the classifier learns from: confident, storable, and about a word of the description. */
  predicate Teaches(fold: Folding, tenant: Id, desc: string, a: Answer) {
    a.confidence >= 0.8 && Storable(Learned(tenant, a)) && Occurs(fold, desc, a.keyword)
  }

  /** The column keeps the first 255 characters. */
  lemma CutIs(keyword: string)
    ensures Cut(keyword) <= keyword && |Cut(keyword)| == if |keyword| < 255 then |keyword| else 255
  {
  }

  /** What is left of a keyword when the column cuts it still occurs wherever the keyword does. */
  lemma CutOccurs(fold: Folding, desc: string, keyword: string)
    requires Occurs(fold, desc, keyword)
    ensures Occurs(fold, desc, Cut(keyword))
  {
    var text, part, cut := Lower(fold, desc), Lower(fold, keyword), Lower(fold, Cut(keyword));
    var i: nat :| i <= |text| - |part| && StandsAt(text, part, i);
    StandsAtIff(text, part, i);
    StandsAtIff(text, cut, i);
    assert forall k | 0 <= k < |cut| :: cut[k] == part[k];
    assert StandsAt(text, cut, i);
  }

  /** A rule made from a description that no rule matched cannot collide with one that is there. */
  lemma NoCollision(fold: Folding, rules: seq<Rule>, tenant: Id, desc: string, a: Answer)
    requires NeedsOracle(fold, rules, tenant, desc) && Occurs(fold, desc, a.keyword)
    ensures !KeywordTaken(rules, Learned(tenant, a))
  {
    LookUpFindsNewest(fold, rules, tenant, desc);
    CutOccurs(fold, desc, a.keyword);
    if i :| 0 <= i < |rules| && rules[i].tenant == tenant && rules[i].keyword == Cut(a.keyword) {
      assert RuleMatches(fold, rules[i], tenant, desc);
    }
  }

  /** When the answer is about a word of the description, and the rules could be read, the call adds a rule
      exactly when the answer is confident and storable and the insert gets through; then the next call that
      can read them gives the same type by rule, with keyword and confidence as stored, whatever the oracle
      would say, and otherwise the next call is left to the oracle again. */
  lemma LearnsIff(fold: Folding, rules: seq<Rule>, tenant: Id, desc: string, a: Answer, inserts: bool, next: Option<Answer>)
    requires NeedsOracle(fold, rules, tenant, desc) && Occurs(fold, desc, a.keyword)
    ensures var rules' := RulesAfter(fold, rules, Call(tenant, desc, true, Some(a), inserts));
            && (Teaches(fold, tenant, desc, a) && inserts <==> rules' == rules + [Stored(Learned(tenant, a))])
            && (Teaches(fold, tenant, desc, a) && inserts ==>
                  Judge(fold, rules', tenant, desc, next) == Verdict(a.kind, ByRule, Rounded(a.confidence), Cut(a.keyword)))
            && (!(Teaches(fold, tenant, desc, a) && inserts) ==> rules' == rules && NeedsOracle(fold, rules', tenant, desc))
  {
    NoCollision(fold, rules, tenant, desc, a);
    CutOccurs(fold, desc, a.keyword);
  }

  /** The stored confidence is the reported one to four decimals, and one that was enough to learn stays enough. */
  lemma RoundedIsNear(x: real)
    ensures x - 0.00005 <= Rounded(x) <= x + 0.00005
    ensures x >= 0.8 ==> Rounded(x) >= 0.8
    ensures (Rounded(x) * 10000.0).Floor as real == Rounded(x) * 10000.0
  {
    var up := if x >= 0.0 then (x * 10000.0 + 0.5).Floor else -(-x * 10000.0 + 0.5).Floor;
    assert Rounded(x) * 10000.0 == up as real;
    if x >= 0.8 {
      assert up >= 8000;
    }
  }

  /** A confident answer about a word of the description that is not learned: the word has 256 characters. */
  lemma LongKeywordIsNotLearned()
    ensures var fold := (c: char) => c; var word := seq(256, _ => 'x'); var a := Answer(Asset, 0.9, word);
      && NeedsOracle(fold, [], 0, word) && Occurs(fold, word, a.keyword)
      && RulesAfter(fold, [], Call(0, word, true, Some(a), true)) == []
  {
    var fold := (c: char) => c;
    var word := seq(256, _ => 'x');
    NoneStartsWithX();
    NothingListedOccurs(fold, word, ASSET_KEYWORDS);
    NothingListedOccurs(fold, word, EXPENSE_KEYWORDS);
    assert StandsAt(Lower(fold, word), Lower(fold, word), 0);
    assert word[255] == 'x';
  }

  predicate StartsWithOther(keywords: seq<string>) {
    forall i | 0 <= i < |keywords| :: keywords[i] != "" && keywords[i][0] != 'x'
  }

  lemma NoneStartsWithX()
    ensures StartsWithOther(ASSET_KEYWORDS) && StartsWithOther(EXPENSE_KEYWORDS)
  {
  }

  lemma NothingListedOccurs(fold: Folding, word: string, keywords: seq<string>)
    requires (forall c :: fold(c) == c) && (forall i | 0 <= i < |word| :: word[i] == 'x') && StartsWithOther(keywords)
    ensures FirstOf(fold, word, keywords).None?
  {
    FirstOfIsFirst(fold, word, keywords);
    forall k | 0 <= k < |keywords| ensures !Occurs(fold, word, keywords[k]) {
      var text, part := Lower(fold, word), Lower(fold, keywords[k]);
      forall i | 0 <= i <= |text| - |part| ensures !StandsAt(text, part, i) {
        assert text[i..i + |part|][0] == 'x' && part[0] != 'x';
      }
    }
  }

  // ---------- Runs that only add rules ----------

  datatype Event = Add(rule: Rule, inserts: bool) | Classify(call: Call)

  function Next(fold: Folding, rules: seq<Rule>, e: Event): seq<Rule> {
    match e
    case Add(r, inserts) => CreateRule(rules, r, inserts)
    case Classify(c) => RulesAfter(fold, rules, c)
  }

  function Run(fold: Folding, rules: seq<Rule>, events: seq<Event>): seq<Rule>
    decreases |events|
  {
    if events == [] then rules else Run(fold, Next(fold, rules, events[0]), events[1..])
  }

  lemma {:induction false} RunOnlyAdds(fold: Folding, rules: seq<Rule>, events: seq<Event>)
    requires TableOk(rules)
    ensures TableOk(Run(fold, rules, events)) && rules <= Run(fold, rules, events)
    decreases |events|
  {
    if events != [] {
      RunOnlyAdds(fold, Next(fold, rules, events[0]), events[1..]);
    }
  }

  /** A call that can read the rules decides the description by rule, as an asset or an expense; one that cannot
      is left to the oracle exactly if no listed keyword occurs. */
  predicate Decided(fold: Folding, rules: seq<Rule>, tenant: Id, desc: string, readable: bool, answer: Option<Answer>) {
    if readable then
      var v := Judge(fold, rules, tenant, desc, answer);
      !NeedsOracle(fold, rules, tenant, desc) && v.source == ByRule && v.kind in {Asset, Expense}
    else NeedsOracle(fold, [], tenant, desc) <==> ByKeywords(fold, desc) == DEFAULT
  }

  lemma MatchedIsDecided(fold: Folding, rules: seq<Rule>, tenant: Id, desc: string, i: nat, readable: bool, answer: Option<Answer>)
    requires TableOk(rules) && i < |rules| && RuleMatches(fold, rules[i], tenant, desc)
    ensures Decided(fold, rules, tenant, desc, readable, answer)
  {
    MatchSettles(fold, rules, tenant, desc, i);
    LookUpFindsNewest(fold, rules, tenant, desc);
  }

  /** A description some rule matches stays decided in every run that only adds rules, whichever of its
      queries and inserts fail. */
  lemma DecidedForGood(fold: Folding, rules: seq<Rule>, events: seq<Event>, tenant: Id, desc: string, i: nat,
                       readable: bool, answer: Option<Answer>)
    requires TableOk(rules) && i < |rules| && RuleMatches(fold, rules[i], tenant, desc)
    ensures Decided(fold, Run(fold, rules, events), tenant, desc, readable, answer)
  {
    var later := Run(fold, rules, events);
    RunOnlyAdds(fold, rules, events);
    assert later[i] == rules[i];
    MatchedIsDecided(fold, later, tenant, desc, i, readable, answer);
  }

  lemma StoredMatches(fold: Folding, rules: seq<Rule>, tenant: Id, desc: string, a: Answer)
    requires TableOk(rules) && Teaches(fold, tenant, desc, a)
    ensures TableOk(rules + [Stored(Learned(tenant, a))]) && RuleMatches(fold, Stored(Learned(tenant, a)), tenant, desc)
  {
    CutOccurs(fold, desc, a.keyword);
  }

  /** Learning is stable: after a teaching answer whose insert got through, a call on the description reaches
      the oracle exactly when its rules query fails, and every other call decides it by rule. */
  lemma LearningIsStable(fold: Folding, rules: seq<Rule>, tenant: Id, desc: string, a: Answer, events: seq<Event>,
                         readable: bool, answer: Option<Answer>)
    requires TableOk(rules) && NeedsOracle(fold, rules, tenant, desc) && Teaches(fold, tenant, desc, a)
    ensures var later := Run(fold, RulesAfter(fold, rules, Call(tenant, desc, true, Some(a), true)), events);
            && Decided(fold, later, tenant, desc, readable, answer)
            && (NeedsOracle(fold, Seen(later, readable), tenant, desc) <==> !readable)
  {
    LearnsIff(fold, rules, tenant, desc, a, true, None);
    StoredMatches(fold, rules, tenant, desc, a);
    DecidedForGood(fold, rules + [Stored(Learned(tenant, a))], events, tenant, desc, |rules|, readable, answer);
  }

  /** Calls overlap: between the look-up and the insert others may have added rules, even one with the same
      keyword. If the insert gets through, or fails because the keyword is there, the description is decided
      for good all the same. */
  lemma LearnedDespiteRace(fold: Folding, rules: seq<Rule>, meanwhile: seq<Event>, later: seq<Event>, tenant: Id, desc: string,
                           a: Answer, inserts: bool, readable: bool, answer: Option<Answer>)
    requires TableOk(rules) && Teaches(fold, tenant, desc, a)
    requires inserts || KeywordTaken(Run(fold, rules, meanwhile), Learned(tenant, a))
    ensures var end := Run(fold, CreateRule(Run(fold, rules, meanwhile), Learned(tenant, a), inserts), later);
            Decided(fold, end, tenant, desc, readable, answer)
  {
    RunOnlyAdds(fold, rules, meanwhile);
    var now := Run(fold, rules, meanwhile);
    StoredMatches(fold, now, tenant, desc, a);
    if i :| 0 <= i < |now| && now[i].tenant == tenant && now[i].keyword == Cut(a.keyword) {
      DecidedForGood(fold, now, later, tenant, desc, i, readable, answer);
    } else {
      DecidedForGood(fold, now + [Stored(Learned(tenant, a))], later, tenant, desc, |now|, readable, answer);
    }
  }

  /** An insert that does not get through, with the keyword not there, teaches nothing at all. */
  lemma FailedInsertTeachesNothing(fold: Folding, rules: seq<Rule>, tenant: Id, desc: string, a: Answer, readable: bool)
    requires NeedsOracle(fold, Seen(rules, readable), tenant, desc)
    ensures var rules' := RulesAfter(fold, rules, Call(tenant, desc, readable, Some(a), false));
            rules' == rules && NeedsOracle(fold, Seen(rules', readable), tenant, desc)
  {
  }
}
