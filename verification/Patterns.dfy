/** The few regular expressions that find dates: a sequence of repeated character classes and one choice
    among words, matched greedily with backtracking, at the leftmost position where that succeeds. */
module Patterns {
  import opened Decimal
  import opened Wrappers

  /** \d{lo,hi}, one of a few separators, \s+, \S+, or one of several words. */
  datatype Piece = Digits(lo: nat, hi: nat) | OneOf(chars: set<char>) | Blanks | NonBlanks | Word(words: seq<string>)

  type Pattern = seq<Piece>

  predicate IsBlank(c: char) {
    c == ' ' || c == '\t' || c == '\n' || c == '\r' || c as int == 0x0C
  }

  /** Whether a piece of its own accord accepts this text. */
  predicate Accepts(p: Piece, x: string) {
    match p
    case Digits(lo, hi) => lo <= |x| <= hi && AllDigits(x)
    case OneOf(chars) => |x| == 1 && x[0] in chars
    case Blanks => x != "" && forall i | 0 <= i < |x| :: IsBlank(x[i])
    case NonBlanks => x != "" && forall i | 0 <= i < |x| :: !IsBlank(x[i])
    case Word(words) => x in words
  }

  /** Greedy with backtracking: the first piece takes the longest text it accepts for which the rest of
      the pattern matches what follows. The order of words is lost, which does not matter where none is a
      prefix of another. */
  function MatchHere(ps: Pattern, s: string): Option<seq<string>>
    decreases |ps|, 0, 0
  {
    if ps == [] then Some([]) else TryFrom(ps, s, |s|)
  }

  function TryFrom(ps: Pattern, s: string, n: nat): Option<seq<string>>
    requires ps != [] && n <= |s|
    decreases |ps| - 1, 1, n
  {
    var rest := if Accepts(ps[0], s[..n]) then MatchHere(ps[1..], s[n..]) else None;
    if rest.Some? then Some([s[..n]] + rest.value)
    else if n == 0 then None
    else TryFrom(ps, s, n - 1)
  }

  /** The captures of the leftmost match. */
  function Find(ps: Pattern, s: string): Option<seq<string>> {
    if MatchHere(ps, s).Some? then MatchHere(ps, s)
    else if s == "" then None
    else Find(ps, s[1..])
  }

  // ---------- What a match says about the text ----------

  function Concat(xs: seq<string>): string {
    if xs == [] then "" else xs[0] + Concat(xs[1..])
  }

  predicate Fit(ps: Pattern, xs: seq<string>) {
    |ps| == |xs| && forall i | 0 <= i < |ps| :: Accepts(ps[i], xs[i])
  }

  lemma {:induction false} MatchIsThere(ps: Pattern, s: string)
    requires MatchHere(ps, s).Some?
    ensures Fit(ps, MatchHere(ps, s).value)
    ensures Concat(MatchHere(ps, s).value) <= s
    decreases |ps|, 0, 0
  {
    if ps != [] {
      TryIsThere(ps, s, |s|);
    }
  }

  lemma {:induction false} TryIsThere(ps: Pattern, s: string, n: nat)
    requires ps != [] && n <= |s| && TryFrom(ps, s, n).Some?
    ensures Fit(ps, TryFrom(ps, s, n).value)
    ensures Concat(TryFrom(ps, s, n).value) <= s
    decreases |ps| - 1, 1, n
  {
    if Accepts(ps[0], s[..n]) && MatchHere(ps[1..], s[n..]).Some? {
      MatchIsThere(ps[1..], s[n..]);
      var rest := MatchHere(ps[1..], s[n..]).value;
      assert ([s[..n]] + rest)[1..] == rest;
      assert s == s[..n] + s[n..];
    } else {
      TryIsThere(ps, s, n - 1);
    }
  }

  /** A match that is found stands somewhere in the text, and fits the pattern piece by piece. */
  lemma {:induction false} FoundIsThere(ps: Pattern, s: string) returns (at: nat)
    requires Find(ps, s).Some?
    ensures at <= |s| && Concat(Find(ps, s).value) <= s[at..]
    ensures Fit(ps, Find(ps, s).value)
    decreases |s|
  {
    if MatchHere(ps, s).Some? {
      at := 0;
      MatchIsThere(ps, s);
      assert s[0..] == s;
    } else {
      at := FoundIsThere(ps, s[1..]);
      at := at + 1;
      assert s[at..] == s[1..][at - 1..];
    }
  }

  // ---------- What a search finds ----------

  /** Wherever the pattern fits at all, matching succeeds, and what it takes is the greediest fit: at the first
      piece in which another fit differs, it takes more. */
  ghost predicate Greedier(xs: seq<string>, ys: seq<string>) {
    xs == ys || exists k: nat | k < |xs| && k < |ys| :: xs[..k] == ys[..k] && |xs[k]| > |ys[k]|
  }

  lemma {:induction false} MatchIsGreediest(ps: Pattern, s: string, ys: seq<string>)
    requires Fit(ps, ys) && Concat(ys) <= s
    ensures MatchHere(ps, s).Some? && Greedier(MatchHere(ps, s).value, ys)
    decreases |ps|, 0, 0
  {
    if ps != [] {
      assert ys == [ys[0]] + ys[1..];
      TryIsGreediest(ps, s, |s|, ys);
    }
  }

  lemma {:induction false} TryIsGreediest(ps: Pattern, s: string, n: nat, ys: seq<string>)
    requires ps != [] && n <= |s| && Fit(ps, ys) && Concat(ys) <= s && |ys[0]| <= n
    ensures TryFrom(ps, s, n).Some? && Greedier(TryFrom(ps, s, n).value, ys)
    decreases |ps| - 1, 1, n
  {
    var y := ys[0];
    assert y <= s && s[..|y|] == y;
    if Accepts(ps[0], s[..n]) && MatchHere(ps[1..], s[n..]).Some? {
      var rest := MatchHere(ps[1..], s[n..]).value;
      if n == |y| {
        TailFits(ps, s, ys);
        MatchIsGreediest(ps[1..], s[n..], ys[1..]);
        GreedierTail(y, rest, ys);
      } else {
        assert ([s[..n]] + rest)[..0] == ys[..0];
      }
    } else if n == |y| {
      TailFits(ps, s, ys);
      MatchIsGreediest(ps[1..], s[n..], ys[1..]);
    } else {
      TryIsGreediest(ps, s, n - 1, ys);
    }
  }

  lemma TailFits(ps: Pattern, s: string, ys: seq<string>)
    requires ps != [] && Fit(ps, ys) && Concat(ys) <= s
    ensures ys[0] <= s && Fit(ps[1..], ys[1..]) && Concat(ys[1..]) <= s[|ys[0]|..]
  {
    var y := ys[0];
    assert Concat(ys) == y + Concat(ys[1..]);
    assert s[..|Concat(ys)|][|y|..] == Concat(ys[1..]);
  }

  lemma GreedierTail(y: string, rest: seq<string>, ys: seq<string>)
    requires ys != [] && ys[0] == y && Greedier(rest, ys[1..])
    ensures Greedier([y] + rest, ys)
  {
    assert ys == [y] + ys[1..];
    if rest != ys[1..] {
      var k: nat :| k < |rest| && k < |ys[1..]| && rest[..k] == ys[1..][..k] && |rest[k]| > |ys[1..][k]|;
      assert ([y] + rest)[..k + 1] == [y] + rest[..k] && ys[..k + 1] == [y] + ys[1..][..k];
      assert ([y] + rest)[k + 1] == rest[k] && ys[k + 1] == ys[1..][k];
    }
  }

  /** No position of the text matches if nothing is found; else what is found is the match of the first
      position that has one. */
  lemma {:induction false} FindIsLeftmost(ps: Pattern, s: string) returns (at: nat)
    ensures at <= |s| && forall i | 0 <= i < at :: MatchHere(ps, s[i..]).None?
    ensures Find(ps, s) == MatchHere(ps, s[at..]) && (Find(ps, s).None? ==> at == |s|)
    decreases |s|
  {
    assert s[0..] == s;
    if MatchHere(ps, s).Some? || s == "" {
      at := 0;
    } else {
      at := FindIsLeftmost(ps, s[1..]);
      forall i | 0 <= i < at + 1 ensures MatchHere(ps, s[i..]).None? {
        assert i > 0 ==> s[i..] == s[1..][i - 1..];
      }
      assert s[at + 1..] == s[1..][at..];
      at := at + 1;
    }
  }

  /** A search fails exactly if the pattern fits nowhere. */
  lemma FindFailsIff(ps: Pattern, s: string)
    ensures Find(ps, s).None? <==> forall i, xs | 0 <= i <= |s| && Fit(ps, xs) :: !(Concat(xs) <= s[i..])
  {
    var at := FindIsLeftmost(ps, s);
    if Find(ps, s).Some? {
      MatchIsThere(ps, s[at..]);
    }
    forall i, xs | 0 <= i <= |s| && Fit(ps, xs) && Concat(xs) <= s[i..] ensures Find(ps, s).Some? {
      MatchIsGreediest(ps, s[i..], xs);
    }
  }

  predicate NoDigits(s: string) {
    forall i | 0 <= i < |s| :: !IsDigit(s[i])
  }

  predicate BeginsWithDigit(ps: Pattern) {
    ps != [] && ps[0].Digits? && ps[0].lo >= 1
  }

  lemma MatchBeginsWithDigit(ps: Pattern, s: string)
    requires BeginsWithDigit(ps) && MatchHere(ps, s).Some?
    ensures s != "" && IsDigit(s[0])
  {
    MatchIsThere(ps, s);
    var xs := MatchHere(ps, s).value;
    assert Accepts(ps[0], xs[0]);
    assert Concat(xs)[0] == xs[0][0];
  }

  /** What stands before the first digit does not matter to a pattern that begins with one. */
  lemma {:induction false} FindSkips(ps: Pattern, pre: string, s: string)
    requires BeginsWithDigit(ps) && NoDigits(pre)
    ensures Find(ps, pre + s) == Find(ps, s)
    decreases |pre|
  {
    if pre == "" {
      assert pre + s == s;
    } else {
      assert (pre + s)[1..] == pre[1..] + s && (pre + s)[0] == pre[0];
      FindSkips(ps, pre[1..], s);
      if MatchHere(ps, pre + s).Some? {
        MatchBeginsWithDigit(ps, pre + s);
      }
    }
  }

  // ---------- Matching a text built from the pieces ----------

  /** Whether piece p takes exactly x of a text that goes on with `tail`: it accepts no longer start. */
  predicate TakesExactly(p: Piece, x: string, tail: string) {
    Accepts(p, x) && forall n | |x| < n <= |x| + |tail| :: !Accepts(p, (x + tail)[..n])
  }

  lemma {:induction false} TryFallsTo(ps: Pattern, s: string, x: string, n: nat)
    requires ps != [] && |x| <= n <= |s| && x <= s
    requires forall k | |x| < k <= n :: !Accepts(ps[0], s[..k])
    ensures TryFrom(ps, s, n) == TryFrom(ps, s, |x|)
    decreases n
  {
    if |x| < n {
      TryFallsTo(ps, s, x, n - 1);
    }
  }

  /** Piece by piece: when the first piece takes exactly x and the rest matches the tail, that is the match. */
  lemma MatchStep(p: Piece, rest: Pattern, x: string, tail: string, xs: seq<string>)
    requires TakesExactly(p, x, tail) && MatchHere(rest, tail) == Some(xs)
    ensures MatchHere([p] + rest, x + tail) == Some([x] + xs)
  {
    var s, ps := x + tail, [p] + rest;
    TryFallsTo(ps, s, x, |s|);
    assert s[..|x|] == x && s[|x|..] == tail && ps[1..] == rest;
  }

  lemma DigitsTake(lo: nat, hi: nat, x: string, tail: string)
    requires lo <= |x| <= hi && AllDigits(x)
    requires |x| == hi || tail == "" || !IsDigit(tail[0])
    ensures TakesExactly(Digits(lo, hi), x, tail)
  {
    forall n | |x| < n <= |x| + |tail| ensures !Accepts(Digits(lo, hi), (x + tail)[..n]) {
      assert (x + tail)[..n][|x|] == tail[0];
    }
  }

  lemma OneTakes(chars: set<char>, c: char, tail: string)
    requires c in chars
    ensures TakesExactly(OneOf(chars), [c], tail)
  {
  }

  lemma BlanksTake(x: string, tail: string)
    requires Accepts(Blanks, x) && (tail == "" || !IsBlank(tail[0]))
    ensures TakesExactly(Blanks, x, tail)
  {
    forall n | |x| < n <= |x| + |tail| ensures !Accepts(Blanks, (x + tail)[..n]) {
      assert (x + tail)[..n][|x|] == tail[0];
    }
  }

  lemma NonBlanksTake(x: string, tail: string)
    requires Accepts(NonBlanks, x) && (tail == "" || IsBlank(tail[0]))
    ensures TakesExactly(NonBlanks, x, tail)
  {
    forall n | |x| < n <= |x| + |tail| ensures !Accepts(NonBlanks, (x + tail)[..n]) {
      assert (x + tail)[..n][|x|] == tail[0];
    }
  }

  /** Five pieces, and what comes after them. */
  function FiveThen(x1: string, x2: string, x3: string, x4: string, x5: string, tail: string): string {
    x1 + (x2 + (x3 + (x4 + (x5 + tail))))
  }

  function Five(x1: string, x2: string, x3: string, x4: string, x5: string): string {
    FiveThen(x1, x2, x3, x4, x5, "")
  }

  lemma FiveMatch(p1: Piece, p2: Piece, p3: Piece, p4: Piece, p5: Piece,
                  x1: string, x2: string, x3: string, x4: string, x5: string, tail: string)
    requires TakesExactly(p5, x5, tail)
    requires TakesExactly(p4, x4, x5 + tail)
    requires TakesExactly(p3, x3, x4 + (x5 + tail))
    requires TakesExactly(p2, x2, x3 + (x4 + (x5 + tail)))
    requires TakesExactly(p1, x1, x2 + (x3 + (x4 + (x5 + tail))))
    ensures MatchHere([p1, p2, p3, p4, p5], FiveThen(x1, x2, x3, x4, x5, tail)) == Some([x1, x2, x3, x4, x5])
    ensures Find([p1, p2, p3, p4, p5], FiveThen(x1, x2, x3, x4, x5, tail)) == Some([x1, x2, x3, x4, x5])
  {
    var q5, q4, q3, q2 := [p5], [p4, p5], [p3, p4, p5], [p2, p3, p4, p5];
    MatchStep(p5, [], x5, tail, []);
    assert [p5] + [] == q5 && [x5] + [] == [x5];
    MatchStep(p4, q5, x4, x5 + tail, [x5]);
    assert [p4] + q5 == q4 && [x4] + [x5] == [x4, x5];
    MatchStep(p3, q4, x3, x4 + (x5 + tail), [x4, x5]);
    assert [p3] + q4 == q3 && [x3] + [x4, x5] == [x3, x4, x5];
    MatchStep(p2, q3, x2, x3 + (x4 + (x5 + tail)), [x3, x4, x5]);
    assert [p2] + q3 == q2 && [x2] + [x3, x4, x5] == [x2, x3, x4, x5];
    MatchStep(p1, q2, x1, x2 + (x3 + (x4 + (x5 + tail))), [x2, x3, x4, x5]);
    assert [p1] + q2 == [p1, p2, p3, p4, p5] && [x1] + [x2, x3, x4, x5] == [x1, x2, x3, x4, x5];
  }
}
