/** Reading the dates of Thai invoices: the worker's parser, the Vision pass that prints the dates it
    finds, and the forms that come back as the date they were made from. */
module InvoiceDates {
  import opened Decimal
  import opened Patterns
  import opened Text
  import opened Wrappers

  datatype Date = Date(year: nat, month: nat, day: nat)

  const UNREADABLE := Date(0, 0, 0)

  const SEPARATORS: set<char> := {'/', '-', '.'}

  /** D/M/Y, Y-M-D, and D month Y; captures include the separators. */
  const DAY_FIRST: Pattern := [Digits(1, 2), OneOf(SEPARATORS), Digits(1, 2), OneOf(SEPARATORS), Digits(4, 4)]
  const YEAR_FIRST: Pattern := [Digits(4, 4), OneOf(SEPARATORS), Digits(1, 2), OneOf(SEPARATORS), Digits(1, 2)]
  const WITH_WORD: Pattern := [Digits(1, 2), Blanks, NonBlanks, Blanks, Digits(4, 4)]

  const LONG_MONTHS: seq<string> := [
    "มกราคม", "กุมภาพันธ์", "มีนาคม", "เมษายน", "พฤษภาคม", "มิถุนายน",
    "กรกฎาคม", "สิงหาคม", "กันยายน", "ตุลาคม", "พฤศจิกายน", "ธันวาคม"]
  const SHORT_MONTHS: seq<string> := [
    "ม.ค.", "ก.พ.", "มี.ค.", "เม.ย.", "พ.ค.", "มิ.ย.", "ก.ค.", "ส.ค.", "ก.ย.", "ต.ค.", "พ.ย.", "ธ.ค."]

  /** The number of a month word, from 1, or 0 for any other word. */
  function MonthNumber(words: seq<string>, w: string): (n: nat)
    ensures n <= |words|
    ensures n != 0 ==> words[n - 1] == w
    ensures n == 0 ==> w !in words
  {
    if words == [] then 0
    else if words[|words| - 1] == w then |words|
    else MonthNumber(words[..|words| - 1], w)
  }

  function ThaiMonth(w: string): nat {
    if MonthNumber(LONG_MONTHS, w) != 0 then MonthNumber(LONG_MONTHS, w) else MonthNumber(SHORT_MONTHS, w)
  }

  /** Years from 2400 on are taken for Buddhist years. */
  function ChristianYear(y: nat): nat {
    if y >= 2400 then y - 543 else y
  }

  function ParseInvoiceDate(raw: string): Date {
    var s := TrimSpace(raw);
    if s == "" then UNREADABLE else
    var m1 := Find(DAY_FIRST, s);
    if m1.Some? then DateOf(DAY_FIRST, s, 4, 2, 0) else
    var m2 := Find(YEAR_FIRST, s);
    if m2.Some? then DateOf(YEAR_FIRST, s, 0, 2, 4) else
    var m3 := Find(WITH_WORD, s);
    if m3.Some? then WordDate(s) else UNREADABLE
  }

  function DateOf(ps: Pattern, s: string, y: nat, m: nat, d: nat): Date
    requires Find(ps, s).Some? && y < |ps| && m < |ps| && d < |ps|
    requires ps[y].Digits? && ps[m].Digits? && ps[d].Digits?
  {
    FoundFits(ps, s);
    var g := Find(ps, s).value;
    Date(ChristianYear(Atoi(g[y])), Atoi(g[m]), Atoi(g[d]))
  }

  function WordDate(s: string): Date
    requires Find(WITH_WORD, s).Some?
  {
    FoundFits(WITH_WORD, s);
    var g := Find(WITH_WORD, s).value;
    if ThaiMonth(g[2]) == 0 then UNREADABLE else Date(ChristianYear(Atoi(g[4])), ThaiMonth(g[2]), Atoi(g[0]))
  }

  lemma FoundFits(ps: Pattern, s: string)
    requires Find(ps, s).Some?
    ensures Fit(ps, Find(ps, s).value)
  {
    var _ := FoundIsThere(ps, s);
  }

  // ---------- Forms ----------

  /** One or two digits. */
  predicate IsShortNumber(x: string) {
    1 <= |x| <= 2 && AllDigits(x)
  }

  predicate IsYear(x: string) {
    |x| == 4 && AllDigits(x)
  }

  lemma SeparatorsAreNoDigits(c: char)
    requires c in SEPARATORS
    ensures !IsDigit(c) && !IsBlank(c)
  {
  }

  /** Blanks as \s has them, one or more. */
  predicate IsBlankText(b: string) {
    b != "" && forall i | 0 <= i < |b| :: b[i] in {' ', '\t', '\n', '\r', '\U{0C}'}
  }

  /** A date in one of the forms, with whatever stands around it on the page. */
  function Around(pre: string, core: string, post: string): string {
    pre + (core + post)
  }

  lemma AroundAt(pre: string, core: string, post: string)
    ensures var s, n := Around(pre, core, post), |pre| + |core|;
      |s| == n + |post|
      && forall k | 0 <= k < |s| :: s[k] == if k < |pre| then pre[k] else if k < n then core[k - |pre|] else post[k - n]
  {
  }

  lemma FormIsThen(x1: string, x2: string, x3: string, x4: string, x5: string, tail: string)
    ensures Five(x1, x2, x3, x4, x5) + tail == FiveThen(x1, x2, x3, x4, x5, tail)
  {
  }

  /** Trimming leaves the form whole. */
  lemma FormsAreTrim(pre: string, x1: string, x2: string, x3: string, x4: string, x5: string, post: string)
    returns (pre': string, post': string)
    requires x1 != "" && x5 != "" && IsDigit(x1[0]) && IsDigit(x5[|x5| - 1])
    ensures var core := Five(x1, x2, x3, x4, x5);
      TrimSpace(Around(pre, core, post)) == Around(pre', core, post') != ""
    ensures |pre'| <= |pre| && pre' == pre[|pre| - |pre'|..] && post' <= post
  {
    var core := Five(x1, x2, x3, x4, x5);
    assert core[0] == x1[0] && Last(core) == x5[|x5| - 1];
    pre', post' := TrimKeepsCore(pre, core, post);
  }

  lemma DayFirstFound(pre: string, d: string, c1: char, m: string, c2: char, y: string, post: string, separators: set<char>)
    requires IsShortNumber(d) && IsShortNumber(m) && IsYear(y) && c1 in separators && c2 in separators && separators <= SEPARATORS
    requires NoDigits(pre)
    ensures Find([Digits(1, 2), OneOf(separators), Digits(1, 2), OneOf(separators), Digits(4, 4)],
                 Around(pre, Five(d, [c1], m, [c2], y), post)) == Some([d, [c1], m, [c2], y])
  {
    SeparatorsAreNoDigits(c1);
    SeparatorsAreNoDigits(c2);
    DigitsTake(4, 4, y, post);
    OneTakes(separators, c2, y + post);
    DigitsTake(1, 2, m, [c2] + (y + post));
    OneTakes(separators, c1, m + ([c2] + (y + post)));
    DigitsTake(1, 2, d, [c1] + (m + ([c2] + (y + post))));
    FiveMatch(Digits(1, 2), OneOf(separators), Digits(1, 2), OneOf(separators), Digits(4, 4), d, [c1], m, [c2], y, post);
    FormIsThen(d, [c1], m, [c2], y, post);
    FindSkips([Digits(1, 2), OneOf(separators), Digits(1, 2), OneOf(separators), Digits(4, 4)], pre,
              FiveThen(d, [c1], m, [c2], y, post));
  }

  /** D/M/Y with any separators, days and months of one or two digits, and any four-digit year, wherever the
      first digit of the text begins it: read as the date it says, whatever comes after it. */
  lemma DayFirstIsRead(pre: string, d: string, c1: char, m: string, c2: char, y: string, post: string)
    requires IsShortNumber(d) && IsShortNumber(m) && IsYear(y) && c1 in {'/', '-', '.'} && c2 in {'/', '-', '.'} && NoDigits(pre)
    ensures ParseInvoiceDate(Around(pre, Five(d, [c1], m, [c2], y), post)) == Date((if Atoi(y) >= 2400 then Atoi(y) - 543 else Atoi(y)), Atoi(m), Atoi(d))
  {
    var pre', post' := FormsAreTrim(pre, d, [c1], m, [c2], y, post);
    DayFirstFound(pre', d, c1, m, c2, y, post', SEPARATORS);
  }

  /** Where the separators of a D/M/Y match stand, and what stands around them. */
  lemma DayFirstShape(s: string, separators: set<char>) returns (i: nat, j: nat)
    requires Find([Digits(1, 2), OneOf(separators), Digits(1, 2), OneOf(separators), Digits(4, 4)], s).Some?
    ensures 0 < i < j && j + 4 < |s| && s[i] in separators && s[j] in separators
    ensures IsDigit(s[i - 1]) && IsDigit(s[i + 1]) && IsDigit(s[j - 1])
    ensures IsDigit(s[j + 4])
  {
    var ps := [Digits(1, 2), OneOf(separators), Digits(1, 2), OneOf(separators), Digits(4, 4)];
    var at := FoundIsThere(ps, s);
    var g := Find(ps, s).value;
    assert Accepts(ps[0], g[0]) && Accepts(ps[1], g[1]) && Accepts(ps[2], g[2]) && Accepts(ps[3], g[3]) && Accepts(ps[4], g[4]);
    FiveConcat(g);
    var a, b := |g[0]|, |g[0]| + 1 + |g[2]|;
    i, j := at + a, at + b;
    FiveParts(g);
    var t := Concat(g);
    assert forall k | 0 <= k < |t| :: s[at + k] == t[k];
    assert t[a] == g[1][0] && t[a - 1] == g[0][a - 1] && t[a + 1] == g[2][0];
    assert t[b] == g[3][0] && t[b - 1] == g[2][|g[2]| - 1];
    assert t[b + 4] == g[4][3];
  }

  /** Where the characters of five pieces stand. */
  lemma FiveParts(g: seq<string>)
    requires |g| == 5 && |g[1]| == 1 && |g[3]| == 1
    ensures var t, a, b := Concat(g), |g[0]|, |g[0]| + 1 + |g[2]|;
      && |t| == b + 1 + |g[4]|
      && t[..a] == g[0] && t[a] == g[1][0] && t[a + 1..b] == g[2] && t[b] == g[3][0] && t[b + 1..] == g[4]
  {
    FiveConcat(g);
  }

  lemma ConcatFrom(g: seq<string>, k: nat)
    requires k < |g|
    ensures Concat(g[k..]) == g[k] + Concat(g[k + 1..])
  {
    assert g[k..][1..] == g[k + 1..];
  }

  lemma FiveConcat(g: seq<string>)
    requires |g| == 5
    ensures Concat(g) == Five(g[0], g[1], g[2], g[3], g[4])
  {
    assert g[0..] == g && g[5..] == [];
    ConcatFrom(g, 0);
    ConcatFrom(g, 1);
    ConcatFrom(g, 2);
    ConcatFrom(g, 3);
    ConcatFrom(g, 4);
  }

  // ---------- Y-M-D ----------

  /** A separator between digits stands at one of the two places of the form. */
  lemma SeparatorsInYearFirst(pre: string, y: string, c1: char, m: string, c2: char, d: string, post: string, k: nat)
    requires IsYear(y) && IsShortNumber(m) && IsShortNumber(d) && NoDigits(pre) && NoDigits(post)
    requires var s := Around(pre, Five(y, [c1], m, [c2], d), post);
      0 < k && k + 1 < |s| && s[k] in SEPARATORS && IsDigit(s[k - 1]) && IsDigit(s[k + 1])
    ensures k == |pre| + 4 || k == |pre| + 5 + |m|
  {
    var core := Five(y, [c1], m, [c2], d);
    var s := Around(pre, core, post);
    AroundAt(pre, core, post);
    SeparatorsAreNoDigits(s[k]);
    assert |pre| < k && k + 1 < |pre| + |core|;
  }

  /** A Y-M-D text holds no D/M/Y: only two digits can follow its second separator. */
  lemma YearFirstIsNotDayFirst(pre: string, y: string, c1: char, m: string, c2: char, d: string, post: string)
    requires IsYear(y) && IsShortNumber(m) && IsShortNumber(d) && c1 in SEPARATORS && c2 in SEPARATORS
    requires NoDigits(pre) && NoDigits(post)
    ensures Find(DAY_FIRST, Around(pre, Five(y, [c1], m, [c2], d), post)).None?
  {
    var core := Five(y, [c1], m, [c2], d);
    var s := Around(pre, core, post);
    AroundAt(pre, core, post);
    if Find(DAY_FIRST, s).Some? {
      var i, j := DayFirstShape(s, SEPARATORS);
      SeparatorsInYearFirst(pre, y, c1, m, c2, d, post, i);
      SeparatorsInYearFirst(pre, y, c1, m, c2, d, post, j);
    }
  }

  lemma YearFirstFound(pre: string, y: string, c1: char, m: string, c2: char, d: string, post: string)
    requires IsYear(y) && IsShortNumber(m) && IsShortNumber(d) && c1 in SEPARATORS && c2 in SEPARATORS
    requires NoDigits(pre) && NoDigits(post)
    ensures Find(YEAR_FIRST, Around(pre, Five(y, [c1], m, [c2], d), post)) == Some([y, [c1], m, [c2], d])
  {
    SeparatorsAreNoDigits(c1);
    SeparatorsAreNoDigits(c2);
    DigitsTake(1, 2, d, post);
    OneTakes(SEPARATORS, c2, d + post);
    DigitsTake(1, 2, m, [c2] + (d + post));
    OneTakes(SEPARATORS, c1, m + ([c2] + (d + post)));
    DigitsTake(4, 4, y, [c1] + (m + ([c2] + (d + post))));
    FiveMatch(Digits(4, 4), OneOf(SEPARATORS), Digits(1, 2), OneOf(SEPARATORS), Digits(1, 2), y, [c1], m, [c2], d, post);
    FormIsThen(y, [c1], m, [c2], d, post);
    FindSkips(YEAR_FIRST, pre, FiveThen(y, [c1], m, [c2], d, post));
  }

  /** Y-M-D with any separators, and no other digits in the text, is read as the date it says. */
  lemma YearFirstIsRead(pre: string, y: string, c1: char, m: string, c2: char, d: string, post: string)
    requires IsYear(y) && IsShortNumber(m) && IsShortNumber(d) && c1 in {'/', '-', '.'} && c2 in {'/', '-', '.'}
    requires NoDigits(pre) && NoDigits(post)
    ensures ParseInvoiceDate(Around(pre, Five(y, [c1], m, [c2], d), post)) == Date((if Atoi(y) >= 2400 then Atoi(y) - 543 else Atoi(y)), Atoi(m), Atoi(d))
  {
    var pre', post' := FormsAreTrim(pre, y, [c1], m, [c2], d, post);
    YearFirstIsNotDayFirst(pre', y, c1, m, c2, d, post');
    YearFirstFound(pre', y, c1, m, c2, d, post');
  }

  // ---------- Month words ----------

  /** A word without blanks and digits that does not begin with a separator. */
  predicate IsWord(w: string) {
    w != "" && w[0] !in SEPARATORS && forall i | 0 <= i < |w| :: !IsBlank(w[i]) && !IsDigit(w[i])
  }

  lemma YearFirstShape(s: string) returns (i: nat)
    requires Find(YEAR_FIRST, s).Some?
    ensures 0 < i && i + 1 < |s| && s[i] in SEPARATORS && IsDigit(s[i - 1]) && IsDigit(s[i + 1])
  {
    var at := FoundIsThere(YEAR_FIRST, s);
    var g := Find(YEAR_FIRST, s).value;
    assert Accepts(YEAR_FIRST[0], g[0]) && Accepts(YEAR_FIRST[1], g[1]) && Accepts(YEAR_FIRST[2], g[2])
           && Accepts(YEAR_FIRST[3], g[3]) && Accepts(YEAR_FIRST[4], g[4]);
    FiveParts(g);
    var t := Concat(g);
    i := at + 4;
    assert forall k | 0 <= k < |t| :: s[at + k] == t[k];
    assert t[4] == g[1][0] && t[3] == g[0][3] && t[5] == g[2][0];
  }

  /** No separator stands between two digits. */
  lemma NoSeparatorBetweenDigits(pre: string, d: string, b1: string, w: string, b2: string, y: string, post: string, i: nat)
    requires AllDigits(d) && AllDigits(y) && IsWord(w) && Accepts(Blanks, b1) && Accepts(Blanks, b2) && NoDigits(pre) && NoDigits(post)
    requires var s := Around(pre, Five(d, b1, w, b2, y), post);
      0 < i && i + 1 < |s| && s[i] in SEPARATORS && IsDigit(s[i - 1])
    ensures !IsDigit(Around(pre, Five(d, b1, w, b2, y), post)[i + 1])
  {
    var core := Five(d, b1, w, b2, y);
    var s := Around(pre, core, post);
    SeparatorsAreNoDigits(s[i]);
    AroundAt(pre, core, post);
    if i + 1 < |pre| + |core| {
      WordFormParts(d, b1, w, b2, y, i - |pre|);
    }
  }

  /** In the form itself no separator follows a digit. */
  lemma WordFormParts(d: string, b1: string, w: string, b2: string, y: string, i: nat)
    requires AllDigits(d) && AllDigits(y) && IsWord(w) && Accepts(Blanks, b1) && Accepts(Blanks, b2)
    requires var s := Five(d, b1, w, b2, y); 0 < i < |s| && s[i] in SEPARATORS
    ensures !IsDigit(Five(d, b1, w, b2, y)[i - 1])
  {
    var s := Five(d, b1, w, b2, y);
    SeparatorsAreNoDigits(s[i]);
    var j := |d| + |b1|;
    assert s[j] == w[0];
    assert j < i < j + |w| ==> s[i - 1] == w[i - 1 - j];
  }

  lemma BlankTextIsBlanks(b: string)
    requires IsBlankText(b)
    ensures Accepts(Blanks, b)
  {
  }

  lemma WordDateFound(pre: string, d: string, b1: string, w: string, b2: string, y: string, post: string)
    requires IsShortNumber(d) && IsYear(y) && IsWord(w) && IsBlankText(b1) && IsBlankText(b2) && NoDigits(pre)
    ensures Find(WITH_WORD, Around(pre, Five(d, b1, w, b2, y), post)) == Some([d, b1, w, b2, y])
  {
    BlankTextIsBlanks(b1);
    BlankTextIsBlanks(b2);
    DigitsTake(4, 4, y, post);
    BlanksTake(b2, y + post);
    NonBlanksTake(w, b2 + (y + post));
    BlanksTake(b1, w + (b2 + (y + post)));
    DigitsTake(1, 2, d, b1 + (w + (b2 + (y + post))));
    FiveMatch(Digits(1, 2), Blanks, NonBlanks, Blanks, Digits(4, 4), d, b1, w, b2, y, post);
    FormIsThen(d, b1, w, b2, y, post);
    FindSkips(WITH_WORD, pre, FiveThen(d, b1, w, b2, y, post));
  }

  lemma WordDateIsNoNumericDate(pre: string, d: string, b1: string, w: string, b2: string, y: string, post: string)
    requires IsShortNumber(d) && IsYear(y) && IsWord(w) && IsBlankText(b1) && IsBlankText(b2) && NoDigits(pre) && NoDigits(post)
    ensures var s := Around(pre, Five(d, b1, w, b2, y), post);
      Find(DAY_FIRST, s).None? && Find(VISION_NUMERIC, s).None? && Find(YEAR_FIRST, s).None?
  {
    var s := Around(pre, Five(d, b1, w, b2, y), post);
    BlankTextIsBlanks(b1);
    BlankTextIsBlanks(b2);
    if Find(DAY_FIRST, s).Some? {
      var i, j := DayFirstShape(s, SEPARATORS);
      NoSeparatorBetweenDigits(pre, d, b1, w, b2, y, post, i);
    }
    if Find(VISION_NUMERIC, s).Some? {
      var i, j := DayFirstShape(s, VISION_SEPARATORS);
      NoSeparatorBetweenDigits(pre, d, b1, w, b2, y, post, i);
    }
    if Find(YEAR_FIRST, s).Some? {
      var i := YearFirstShape(s);
      NoSeparatorBetweenDigits(pre, d, b1, w, b2, y, post, i);
    }
  }

  /** D word Y, and no other digits in the text, is read as the date it says for every word that names a month,
      and for any other word as no date. */
  lemma WordDateIsRead(pre: string, d: string, b1: string, w: string, b2: string, y: string, post: string)
    requires IsShortNumber(d) && IsYear(y) && IsWord(w) && IsBlankText(b1) && IsBlankText(b2) && NoDigits(pre) && NoDigits(post)
    ensures ParseInvoiceDate(Around(pre, Five(d, b1, w, b2, y), post)) ==
            if ThaiMonth(w) != 0 then Date((if Atoi(y) >= 2400 then Atoi(y) - 543 else Atoi(y)), ThaiMonth(w), Atoi(d)) else Date(0, 0, 0)
  {
    var pre', post' := FormsAreTrim(pre, d, b1, w, b2, y, post);
    WordDateIsNoNumericDate(pre', d, b1, w, b2, y, post');
    WordDateFound(pre', d, b1, w, b2, y, post');
  }

  /** A text without digits holds no date. */
  lemma NoDigitsNoDate(s: string)
    requires NoDigits(s)
    ensures ParseInvoiceDate(s) == Date(0, 0, 0) && VisionDate(s) == None
  {
    var left, right := TrimCutsSpace(s);
    assert forall i | 0 <= i < |TrimSpace(s)| :: TrimSpace(s)[i] == s[|left| + i];
    NothingToFind(TrimSpace(s));
    NothingToFind(s);
  }

  lemma NothingToFind(s: string)
    requires NoDigits(s)
    ensures Find(DAY_FIRST, s).None? && Find(YEAR_FIRST, s).None? && Find(WITH_WORD, s).None?
    ensures Find(VISION_NUMERIC, s).None? && Find(VISION_THAI, s).None?
  {
    assert s + "" == s;
    FindSkips(DAY_FIRST, s, "");
    FindSkips(YEAR_FIRST, s, "");
    FindSkips(WITH_WORD, s, "");
    FindSkips(VISION_NUMERIC, s, "");
    FindSkips(VISION_THAI, s, "");
    NothingInNothing(DAY_FIRST);
    NothingInNothing(YEAR_FIRST);
    NothingInNothing(WITH_WORD);
    NothingInNothing(VISION_NUMERIC);
    NothingInNothing(VISION_THAI);
  }

  lemma NothingInNothing(ps: Pattern)
    requires BeginsWithDigit(ps)
    ensures Find(ps, "").None?
  {
    if MatchHere(ps, "").Some? {
      MatchBeginsWithDigit(ps, "");
    }
  }

  lemma LongMonthsDiffer(i: nat, j: nat)
    requires i < 12 && j < 12 && LONG_MONTHS[i] == LONG_MONTHS[j]
    ensures i == j
  {
  }

  lemma ShortMonthsDiffer(i: nat, j: nat)
    requires i < 12 && j < 12 && SHORT_MONTHS[i] == SHORT_MONTHS[j]
    ensures i == j
  {
  }

  lemma LongAndShortDiffer(i: nat, j: nat)
    requires i < 12 && j < 12
    ensures LONG_MONTHS[i] != SHORT_MONTHS[j]
  {
    assert Last(SHORT_MONTHS[j]) == '.';
  }

  lemma LongMonthsAreWords(k: nat)
    requires k < 12
    ensures IsWord(LONG_MONTHS[k])
  {
  }

  lemma ShortMonthsAreWords(k: nat)
    requires k < 12
    ensures IsWord(SHORT_MONTHS[k])
  {
  }

  /** Long and short names both stand for their month. */
  lemma MonthNamesAreRead(k: nat)
    requires k < 12
    ensures ThaiMonth(LONG_MONTHS[k]) == k + 1 && ThaiMonth(SHORT_MONTHS[k]) == k + 1
    ensures IsWord(LONG_MONTHS[k]) && IsWord(SHORT_MONTHS[k])
  {
    LongMonthsAreWords(k);
    ShortMonthsAreWords(k);
    LongMonthsDiffer(MonthNumber(LONG_MONTHS, LONG_MONTHS[k]) - 1, k);
    ShortMonthsDiffer(MonthNumber(SHORT_MONTHS, SHORT_MONTHS[k]) - 1, k);
    var n := MonthNumber(LONG_MONTHS, SHORT_MONTHS[k]);
    if n != 0 {
      LongAndShortDiffer(n - 1, k);
    }
  }

  /** The names themselves. */
  lemma FirstHalfOfTheYear()
    ensures ThaiMonth("มกราคม") == ThaiMonth("ม.ค.") == 1
    ensures ThaiMonth("กุมภาพันธ์") == ThaiMonth("ก.พ.") == 2
    ensures ThaiMonth("มีนาคม") == ThaiMonth("มี.ค.") == 3
    ensures ThaiMonth("เมษายน") == ThaiMonth("เม.ย.") == 4
    ensures ThaiMonth("พฤษภาคม") == ThaiMonth("พ.ค.") == 5
    ensures ThaiMonth("มิถุนายน") == ThaiMonth("มิ.ย.") == 6
  {
    MonthNamesAreRead(0);
    MonthNamesAreRead(1);
    MonthNamesAreRead(2);
    MonthNamesAreRead(3);
    MonthNamesAreRead(4);
    MonthNamesAreRead(5);
  }

  lemma SecondHalfOfTheYear()
    ensures ThaiMonth("กรกฎาคม") == ThaiMonth("ก.ค.") == 7
    ensures ThaiMonth("สิงหาคม") == ThaiMonth("ส.ค.") == 8
    ensures ThaiMonth("กันยายน") == ThaiMonth("ก.ย.") == 9
    ensures ThaiMonth("ตุลาคม") == ThaiMonth("ต.ค.") == 10
    ensures ThaiMonth("พฤศจิกายน") == ThaiMonth("พ.ย.") == 11
    ensures ThaiMonth("ธันวาคม") == ThaiMonth("ธ.ค.") == 12
  {
    MonthNamesAreRead(6);
    MonthNamesAreRead(7);
    MonthNamesAreRead(8);
    MonthNamesAreRead(9);
    MonthNamesAreRead(10);
    MonthNamesAreRead(11);
  }

  // ---------- Round trips ----------

  /** fmt's %04d-%02d-%02d. */
  function Printed(y: nat, m: nat, d: nat): string {
    Five(Padded(y, 4), "-", Padded(m, 2), "-", Padded(d, 2))
  }

  /** Four digits, a dash, two digits, a dash, two digits. */
  lemma PrintedLooksLike(y: string, m: string, d: string)
    requires |y| == 4 && |m| == 2 && |d| == 2 && AllDigits(y) && AllDigits(m) && AllDigits(d)
    ensures Printed(Atoi(y), Atoi(m), Atoi(d)) == y + "-" + m + "-" + d
  {
    PaddedAtoi(y);
    PaddedAtoi(m);
    PaddedAtoi(d);
  }

  lemma Alone(core: string)
    ensures Around("", core, "") == core
  {
  }

  /** Printing and reading gives the date back exactly for the years below 2400. */
  lemma PrintedIsRead(y: nat, m: nat, d: nat)
    requires y < 10000 && m < 100 && d < 100
    ensures ParseInvoiceDate(Printed(y, m, d)) == Date(ChristianYear(y), m, d)
    ensures ParseInvoiceDate(Printed(y, m, d)) == Date(y, m, d) <==> y < 2400
  {
    assert Pow10(4) == 10000 && Pow10(2) == 100;
    AtoiPadded(y, 4);
    AtoiPadded(m, 2);
    AtoiPadded(d, 2);
    YearFirstIsRead("", Padded(y, 4), '-', Padded(m, 2), '-', Padded(d, 2), "");
    Alone(Printed(y, m, d));
  }

  /** A date written in the Christian year y and in the Buddhist year y + 543 is read as the same date of year y
      exactly from 1857 to 2399, in each of the forms and inside any text without other digits: D/M/Y here. */
  lemma BothErasAgree(pre: string, d: string, c1: char, m: string, c2: char, y: nat, post: string)
    requires IsShortNumber(d) && IsShortNumber(m) && y + 543 < 10000 && c1 in {'/', '-', '.'} && c2 in {'/', '-', '.'} && NoDigits(pre)
    ensures (ParseInvoiceDate(Around(pre, Five(d, [c1], m, [c2], Padded(y, 4)), post))
             == ParseInvoiceDate(Around(pre, Five(d, [c1], m, [c2], Padded(y + 543, 4)), post))
             == Date(y, Atoi(m), Atoi(d))) <==> 1857 <= y < 2400
  {
    assert Pow10(4) == 10000;
    AtoiPadded(y, 4);
    AtoiPadded(y + 543, 4);
    DayFirstIsRead(pre, d, c1, m, c2, Padded(y, 4), post);
    DayFirstIsRead(pre, d, c1, m, c2, Padded(y + 543, 4), post);
  }

  /** The same with long and short month names. */
  lemma BothErasAgreeInWords(pre: string, d: string, k: nat, w: string, y: nat, post: string)
    requires IsShortNumber(d) && y + 543 < 10000 && NoDigits(pre) && NoDigits(post)
    requires k < 12 && (w == LONG_MONTHS[k] || w == SHORT_MONTHS[k])
    ensures (ParseInvoiceDate(Around(pre, Five(d, " ", w, " ", Padded(y, 4)), post))
             == ParseInvoiceDate(Around(pre, Five(d, " ", w, " ", Padded(y + 543, 4)), post))
             == Date(y, k + 1, Atoi(d))) <==> 1857 <= y < 2400
  {
    assert Pow10(4) == 10000;
    AtoiPadded(y, 4);
    AtoiPadded(y + 543, 4);
    MonthNamesAreRead(k);
    WordDateIsRead(pre, d, " ", w, " ", Padded(y, 4), post);
    WordDateIsRead(pre, d, " ", w, " ", Padded(y + 543, 4), post);
  }

  // ---------- The Vision pass ----------

  const VISION_SEPARATORS: set<char> := {'/', '-'}
  const VISION_NUMERIC: Pattern := [Digits(1, 2), OneOf(VISION_SEPARATORS), Digits(1, 2), OneOf(VISION_SEPARATORS), Digits(4, 4)]
  const VISION_THAI: Pattern := [Digits(1, 2), Blanks, Word(LONG_MONTHS), Blanks, Digits(4, 4)]

  /** Here 2400 itself is not yet a Buddhist year. */
  function VisionYear(y: nat): nat {
    if y > 2400 then y - 543 else y
  }

  /** The date that parseInvoiceFromText finds in a text, printed; None when it finds none. */
  function VisionDate(text: string): Option<string> {
    if Find(VISION_NUMERIC, text).Some? then
      var date := NumericDate(text);
      if date.year > 1900 && 1 <= date.month <= 12 && 1 <= date.day <= 31
      then Some(Printed(date.year, date.month, date.day)) else None
    else if Find(VISION_THAI, text).Some? then
      var date := ThaiDate(text);
      if date.year > 1900 && date.month >= 1 then Some(Printed(date.year, date.month, date.day)) else None
    else None
  }

  function NumericDate(text: string): Date
    requires Find(VISION_NUMERIC, text).Some?
  {
    FoundFits(VISION_NUMERIC, text);
    var g := Find(VISION_NUMERIC, text).value;
    assert Accepts(VISION_NUMERIC[0], g[0]) && Accepts(VISION_NUMERIC[2], g[2]) && Accepts(VISION_NUMERIC[4], g[4]);
    Date(VisionYear(Atoi(g[4])), Atoi(g[2]), Atoi(g[0]))
  }

  function ThaiDate(text: string): Date
    requires Find(VISION_THAI, text).Some?
  {
    FoundFits(VISION_THAI, text);
    var g := Find(VISION_THAI, text).value;
    assert Accepts(VISION_THAI[0], g[0]) && Accepts(VISION_THAI[4], g[4]);
    Date(VisionYear(Atoi(g[4])), MonthNumber(LONG_MONTHS, g[2]), Atoi(g[0]))
  }

  lemma ShortNumbersAreSmall(x: string, n: nat)
    requires AllDigits(x) && |x| <= n
    ensures Atoi(x) < Pow10(n)
  {
    PaddedAtoi(x);
    Pow10Grows(|x|, n);
  }

  lemma VisionDateInRange(text: string) returns (y: nat, m: nat, d: nat)
    requires VisionDate(text).Some?
    ensures VisionDate(text) == Some(Printed(y, m, d)) && 1900 < y < 10000 && 1 <= m <= 12 && d < 100
  {
    assert Pow10(4) == 10000 && Pow10(2) == 100;
    if Find(VISION_NUMERIC, text).Some? {
      FoundFits(VISION_NUMERIC, text);
      var g := Find(VISION_NUMERIC, text).value;
      assert Accepts(VISION_NUMERIC[4], g[4]);
      ShortNumbersAreSmall(g[4], 4);
      var date := NumericDate(text);
      y, m, d := date.year, date.month, date.day;
    } else {
      FoundFits(VISION_THAI, text);
      var g := Find(VISION_THAI, text).value;
      assert Accepts(VISION_THAI[0], g[0]) && Accepts(VISION_THAI[4], g[4]);
      ShortNumbersAreSmall(g[0], 2);
      ShortNumbersAreSmall(g[4], 4);
      var date := ThaiDate(text);
      y, m, d := date.year, date.month, date.day;
    }
  }

  /** Whatever text the Vision pass reads, a date it emits is one the worker reads as that same date
      exactly when its year is below 2400. */
  lemma VisionDatesAreRead(text: string) returns (y: nat, m: nat, d: nat)
    requires VisionDate(text).Some?
    ensures VisionDate(text) == Some(Printed(y, m, d)) && 1900 < y && 1 <= m <= 12
    ensures ParseInvoiceDate(VisionDate(text).value) == Date(y, m, d) <==> y < 2400
  {
    y, m, d := VisionDateInRange(text);
    PrintedIsRead(y, m, d);
  }

  /** D/M/Y inside a longer text, wherever its first digit begins the date: a possible date is emitted with the
      Vision pass's year, an impossible one not at all. */
  lemma VisionReadsNumeric(pre: string, d: string, c1: char, m: string, c2: char, y: string, post: string)
    requires IsShortNumber(d) && IsShortNumber(m) && IsYear(y) && NoDigits(pre)
    requires (c1 == '/' || c1 == '-') && (c2 == '/' || c2 == '-')
    ensures var year := if Atoi(y) > 2400 then Atoi(y) - 543 else Atoi(y);
      VisionDate(Around(pre, Five(d, [c1], m, [c2], y), post)) ==
            if year > 1900 && 1 <= Atoi(m) <= 12 && 1 <= Atoi(d) <= 31
            then Some(Printed(year, Atoi(m), Atoi(d))) else None
  {
    DayFirstFound(pre, d, c1, m, c2, y, post, VISION_SEPARATORS);
  }

  /** D month Y inside a longer text without other digits, with the month's full name. */
  lemma VisionReadsThai(pre: string, d: string, b1: string, k: nat, b2: string, y: string, post: string)
    requires IsShortNumber(d) && IsYear(y) && IsBlankText(b1) && IsBlankText(b2) && k < 12 && NoDigits(pre) && NoDigits(post)
    ensures var year := if Atoi(y) > 2400 then Atoi(y) - 543 else Atoi(y);
      VisionDate(Around(pre, Five(d, b1, LONG_MONTHS[k], b2, y), post)) ==
            if year > 1900 then Some(Printed(year, k + 1, Atoi(d))) else None
  {
    var w := LONG_MONTHS[k];
    MonthNamesAreRead(k);
    WordDateIsNoNumericDate(pre, d, b1, w, b2, y, post);
    VisionThaiFound(pre, d, b1, k, b2, y, post);
  }

  lemma VisionThaiFound(pre: string, d: string, b1: string, k: nat, b2: string, y: string, post: string)
    requires IsShortNumber(d) && IsYear(y) && IsBlankText(b1) && IsBlankText(b2) && k < 12 && NoDigits(pre)
    ensures Find(VISION_THAI, Around(pre, Five(d, b1, LONG_MONTHS[k], b2, y), post)) == Some([d, b1, LONG_MONTHS[k], b2, y])
  {
    var w := LONG_MONTHS[k];
    LongMonthsAreWords(k);
    BlankTextIsBlanks(b1);
    BlankTextIsBlanks(b2);
    DigitsTake(4, 4, y, post);
    BlanksTake(b2, y + post);
    MonthTakes(k, b2 + (y + post));
    BlanksTake(b1, w + (b2 + (y + post)));
    DigitsTake(1, 2, d, b1 + (w + (b2 + (y + post))));
    FiveMatch(Digits(1, 2), Blanks, Word(LONG_MONTHS), Blanks, Digits(4, 4), d, b1, w, b2, y, post);
    FormIsThen(d, b1, w, b2, y, post);
    FindSkips(VISION_THAI, pre, FiveThen(d, b1, w, b2, y, post));
  }

  /** No month name goes on with a blank. */
  lemma MonthTakes(k: nat, tail: string)
    requires k < 12 && tail != "" && IsBlank(tail[0])
    ensures TakesExactly(Word(LONG_MONTHS), LONG_MONTHS[k], tail)
  {
    var w := LONG_MONTHS[k];
    forall n | |w| < n <= |w| + |tail| ensures !Accepts(Word(LONG_MONTHS), (w + tail)[..n]) {
      var x := (w + tail)[..n];
      assert x[|w|] == tail[0];
      if x in LONG_MONTHS {
        var j :| 0 <= j < 12 && LONG_MONTHS[j] == x;
        LongMonthsAreWords(j);
      }
    }
  }

  /** The two readers draw the line differently: of any date of the year 2400 the Vision pass emits a date
      that the worker moves to 1857. */
  lemma Year2400IsMoved(pre: string, d: string, m: string, post: string)
    requires IsShortNumber(d) && IsShortNumber(m) && 1 <= Atoi(m) <= 12 && 1 <= Atoi(d) <= 31 && NoDigits(pre)
    ensures VisionDate(Around(pre, Five(d, "/", m, "/", Padded(2400, 4)), post)) == Some(Printed(2400, Atoi(m), Atoi(d)))
    ensures ParseInvoiceDate(Printed(2400, Atoi(m), Atoi(d))) == Date(1857, Atoi(m), Atoi(d))
  {
    assert Pow10(4) == 10000;
    AtoiPadded(2400, 4);
    VisionReadsNumeric(pre, d, '/', m, '/', Padded(2400, 4), post);
    PrintedIsRead(2400, Atoi(m), Atoi(d));
  }
}
