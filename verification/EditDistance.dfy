/** The fuzzy name matcher of the queue worker: a two-row Levenshtein program, proved to compute the
    length of a shortest chain of single-rune edits, and the metric laws of that number. */
module EditDistance {
  import opened Text

  // ---------- Specification: chains of single-rune edits ----------

  /** One edit of a rune sequence: put a rune in, take one out, or replace one. */
  datatype Edit = Insert(at: nat, c: char) | Delete(at: nat) | Substitute(at: nat, c: char)
  {
    predicate Fits(s: string) {
      if Insert? then at <= |s| else at < |s|
    }

    function Apply(s: string): string
      requires Fits(s)
    {
      match this
      case Insert(i, c) => s[..i] + [c] + s[i..]
      case Delete(i) => s[..i] + s[i + 1..]
      case Substitute(i, c) => s[..i] + [c] + s[i + 1..]
    }
  }

  /** Whether carrying out `script` from left to right turns `a` into `b`. */
  ghost predicate Turns(script: seq<Edit>, a: string, b: string) {
    if script == [] then a == b
    else script[0].Fits(a) && Turns(script[1..], script[0].Apply(a), b)
  }

  // ---------- The recurrence behind the table ----------

  function Min3(a: int, b: int, c: int): (m: int)
    ensures m <= a && m <= b && m <= c
    ensures m == a || m == b || m == c
  {
    if a < b then (if a < c then a else c)
    else if b < c then b
    else c
  }

  function Cost(x: char, y: char): nat {
    if x == y then 0 else 1
  }

  /** Cell (|a|, |b|) of the Levenshtein table. */
  function Distance(a: string, b: string): nat
    decreases |a| + |b|
  {
    if a == "" then |b|
    else if b == "" then |a|
    else Min3(Distance(a, Butlast(b)) + 1, Distance(Butlast(a), b) + 1, Distance(Butlast(a), Butlast(b)) + Cost(Last(a), Last(b)))
  }

  // ---------- Metric laws ----------

  lemma {:induction false} DistanceBounds(a: string, b: string)
    ensures |a| - |b| <= Distance(a, b)
    ensures |b| - |a| <= Distance(a, b)
    ensures Distance(a, b) <= |a| || Distance(a, b) <= |b|
    decreases |a| + |b|
  {
    if a != "" && b != "" {
      DistanceBounds(a, Butlast(b));
      DistanceBounds(Butlast(a), b);
      DistanceBounds(Butlast(a), Butlast(b));
    }
  }

  lemma {:induction false} DistanceZeroIffEqual(a: string, b: string)
    ensures Distance(a, b) == 0 <==> a == b
    decreases |a| + |b|
  {
    if a != "" && b != "" {
      DistanceZeroIffEqual(Butlast(a), Butlast(b));
      assert a == Butlast(a) + [Last(a)] && b == Butlast(b) + [Last(b)];
    }
  }

  lemma {:induction false} DistanceSymmetric(a: string, b: string)
    ensures Distance(a, b) == Distance(b, a)
    decreases |a| + |b|
  {
    if a != "" && b != "" {
      DistanceSymmetric(a, Butlast(b));
      DistanceSymmetric(Butlast(a), b);
      DistanceSymmetric(Butlast(a), Butlast(b));
    }
  }

  lemma {:induction false} TriangleInequality(a: string, b: string, c: string)
    ensures Distance(a, c) <= Distance(a, b) + Distance(b, c)
    decreases |a| + |b| + |c|
  {
    DistanceBounds(a, b);
    DistanceBounds(b, c);
    DistanceBounds(a, c);
    if a == "" || c == "" {
    } else if b == "" {
    } else {
      TriangleInequality(Butlast(a), b, c);
      TriangleInequality(a, b, Butlast(c));
      TriangleInequality(a, Butlast(b), c);
      TriangleInequality(a, Butlast(b), Butlast(c));
      TriangleInequality(Butlast(a), Butlast(b), c);
      TriangleInequality(Butlast(a), Butlast(b), Butlast(c));
    }
  }

  // ---------- The recurrence is the shortest chain ----------

  lemma {:induction false} CommonSuffix(u: string, v: string, t: string)
    ensures Distance(u + t, v + t) <= Distance(u, v)
    decreases |t|
  {
    if t == "" {
      assert u + t == u && v + t == v;
    } else {
      CommonSuffix(u, v, Butlast(t));
      assert Butlast(u + t) == u + Butlast(t) && Butlast(v + t) == v + Butlast(t);
    }
  }

  /** What one more rune on either side can add. */
  lemma OneMoreRune(u: string, x: char, v: string, y: char)
    ensures Distance(u + [x], v) <= Distance(u, v) + 1
    ensures Distance(u, v + [y]) <= Distance(u, v) + 1
    ensures Distance(u + [x], v + [y]) <= Distance(u, v) + Cost(x, y)
  {
    assert Butlast(u + [x]) == u && Butlast(v + [y]) == v;
    assert Last(u + [x]) == x && Last(v + [y]) == y;
  }

  lemma InsertIsNear(u: string, c: char, t: string)
    ensures Distance(u + t, u + [c] + t) <= 1
    ensures Distance(u + [c] + t, u + t) <= 1
  {
    DistanceZeroIffEqual(u, u);
    OneMoreRune(u, c, u, c);
    CommonSuffix(u, u + [c], t);
    CommonSuffix(u + [c], u, t);
  }

  lemma SubstituteIsNear(u: string, x: char, c: char, t: string)
    ensures Distance(u + [x] + t, u + [c] + t) <= 1
  {
    DistanceZeroIffEqual(u, u);
    OneMoreRune(u, x, u, c);
    CommonSuffix(u + [x], u + [c], t);
  }

  lemma OneEditIsNear(e: Edit, s: string)
    requires e.Fits(s)
    ensures Distance(s, e.Apply(s)) <= 1
  {
    match e
    case Insert(i, c) =>
      assert s == s[..i] + s[i..];
      InsertIsNear(s[..i], c, s[i..]);
    case Delete(i) =>
      assert s == s[..i] + [s[i]] + s[i + 1..];
      InsertIsNear(s[..i], s[i], s[i + 1..]);
    case Substitute(i, c) =>
      assert s == s[..i] + [s[i]] + s[i + 1..];
      SubstituteIsNear(s[..i], s[i], c, s[i + 1..]);
  }

  /** No chain of edits is shorter than the distance. */
  lemma {:induction false} NoScriptIsCheaper(script: seq<Edit>, a: string, b: string)
    requires Turns(script, a, b)
    ensures Distance(a, b) <= |script|
    decreases |script|
  {
    if script == [] {
      DistanceZeroIffEqual(a, b);
    } else {
      var next := script[0].Apply(a);
      OneEditIsNear(script[0], a);
      NoScriptIsCheaper(script[1..], next, b);
      TriangleInequality(a, next, b);
    }
  }

  lemma EditKeepsSuffix(e: Edit, a: string, t: string)
    requires e.Fits(a)
    ensures e.Fits(a + t) && e.Apply(a + t) == e.Apply(a) + t
  {
    assert (a + t)[..e.at] == a[..e.at] && (a + t)[e.at..] == a[e.at..] + t;
    if !e.Insert? {
      assert (a + t)[e.at + 1..] == a[e.at + 1..] + t;
    }
  }

  lemma {:induction false} ScriptKeepsSuffix(script: seq<Edit>, a: string, b: string, t: string)
    requires Turns(script, a, b)
    ensures Turns(script, a + t, b + t)
    decreases |script|
  {
    if script != [] {
      ScriptKeepsSuffix(script[1..], script[0].Apply(a), b, t);
      EditKeepsSuffix(script[0], a, t);
    }
  }

  /** One edit in front of a chain for the shorter problem. */
  lemma PrependEdit(e: Edit, a: string, rest: seq<Edit>, b: string)
    requires e.Fits(a) && Turns(rest, e.Apply(a), b)
    ensures Turns([e] + rest, a, b)
  {
    assert ([e] + rest)[1..] == rest;
  }

  /** Some chain of edits is as short as the distance. */
  lemma {:induction false} ShortestScript(a: string, b: string) returns (script: seq<Edit>)
    ensures Turns(script, a, b)
    ensures |script| == Distance(a, b)
    decreases |a| + |b|
  {
    if a == "" && b == "" {
      return [];
    }
    LastStep(a, b);
    if b != "" && (a == "" || Distance(a, b) == Distance(a, Butlast(b)) + 1) {
      var rest := ShortestScript(a, Butlast(b));
      script := InsertLast(a, b, rest);
    } else if b == "" || Distance(a, b) == Distance(Butlast(a), b) + 1 {
      var rest := ShortestScript(Butlast(a), b);
      script := DeleteLast(a, b, rest);
    } else {
      var rest := ShortestScript(Butlast(a), Butlast(b));
      script := MatchLast(a, b, rest);
    }
  }

  /** Where a cell of the table got its value from. */
  lemma LastStep(a: string, b: string)
    requires a != "" || b != ""
    ensures || (b != "" && Distance(a, b) == Distance(a, Butlast(b)) + 1)
            || (a != "" && Distance(a, b) == Distance(Butlast(a), b) + 1)
            || (a != "" && b != "" && Distance(a, b) == Distance(Butlast(a), Butlast(b)) + Cost(Last(a), Last(b)))
    ensures a == "" ==> Distance(a, b) == Distance(a, Butlast(b)) + 1
    ensures b == "" ==> Distance(a, b) == Distance(Butlast(a), b) + 1
  {
  }

  lemma InsertLast(a: string, b: string, rest: seq<Edit>) returns (script: seq<Edit>)
    requires b != "" && Turns(rest, a, Butlast(b))
    ensures Turns(script, a, b) && |script| == |rest| + 1
  {
    ScriptKeepsSuffix(rest, a, Butlast(b), [Last(b)]);
    assert Butlast(b) + [Last(b)] == b;
    var e := Insert(|a|, Last(b));
    assert e.Apply(a) == a + [Last(b)];
    PrependEdit(e, a, rest, b);
    script := [e] + rest;
  }

  lemma DeleteLast(a: string, b: string, rest: seq<Edit>) returns (script: seq<Edit>)
    requires a != "" && Turns(rest, Butlast(a), b)
    ensures Turns(script, a, b) && |script| == |rest| + 1
  {
    var e := Delete(|a| - 1);
    assert e.Apply(a) == Butlast(a);
    PrependEdit(e, a, rest, b);
    script := [e] + rest;
  }

  lemma MatchLast(a: string, b: string, rest: seq<Edit>) returns (script: seq<Edit>)
    requires a != "" && b != "" && Turns(rest, Butlast(a), Butlast(b))
    ensures Turns(script, a, b) && |script| == |rest| + Cost(Last(a), Last(b))
  {
    assert Butlast(a) + [Last(a)] == a && Butlast(b) + [Last(b)] == b;
    script := MatchSuffix(Butlast(a), Last(a), Butlast(b), Last(b), rest);
  }

  lemma MatchSuffix(u: string, x: char, v: string, y: char, rest: seq<Edit>) returns (script: seq<Edit>)
    requires Turns(rest, u, v)
    ensures Turns(script, u + [x], v + [y]) && |script| == |rest| + Cost(x, y)
  {
    ScriptKeepsSuffix(rest, u, v, [y]);
    script := rest;
    if x != y {
      SubstituteLast(u, x, y);
      PrependEdit(Substitute(|u|, y), u + [x], rest, v + [y]);
      script := [Substitute(|u|, y)] + rest;
    }
  }

  lemma SubstituteLast(u: string, x: char, y: char)
    ensures Substitute(|u|, y).Fits(u + [x]) && Substitute(|u|, y).Apply(u + [x]) == u + [y]
  {
  }

  // ---------- The program ----------

  function Max(x: nat, y: nat): nat {
    if x < y then y else x
  }

  function Ratio(dist: int, longest: int): real
    requires longest != 0
  {
    1.0 - dist as real / longest as real
  }

  /** The similarity ratio of two already trimmed names, by one formula for every length. */
  function Similarity(a: string, b: string): real {
    var longest := Max(|a|, |b|);
    if longest == 0 then 1.0 else Ratio(Distance(a, b), longest)
  }

  function Cell(ra: string, rb: string, i: nat, j: nat): nat
    requires i <= |ra| && j <= |rb|
  {
    Distance(ra[..i], rb[..j])
  }

  lemma NextCell(ra: string, rb: string, i: nat, j: nat)
    requires 1 <= i <= |ra| && 1 <= j <= |rb|
    ensures Cell(ra, rb, i, j) == Min3(Cell(ra, rb, i, j - 1) + 1, Cell(ra, rb, i - 1, j) + 1,
                                       Cell(ra, rb, i - 1, j - 1) + Cost(ra[i - 1], rb[j - 1]))
  {
    assert Butlast(ra[..i]) == ra[..i - 1] && Butlast(rb[..j]) == rb[..j - 1];
  }

  lemma BorderCells(ra: string, rb: string, i: nat, j: nat)
    requires i <= |ra| && j <= |rb|
    ensures Cell(ra, rb, i, 0) == i && Cell(ra, rb, 0, j) == j
  {
  }

  /** The inner loop: from row i - 1 to row i. */
  method NextRow(prev: array<int>, ra: string, rb: string, i: nat) returns (curr: array<int>)
    requires 1 <= i <= |ra| && prev.Length == |rb| + 1
    requires forall j | 0 <= j <= |rb| :: prev[j] == Cell(ra, rb, i - 1, j)
    ensures fresh(curr) && curr.Length == |rb| + 1
    ensures forall j | 0 <= j <= |rb| :: curr[j] == Cell(ra, rb, i, j)
  {
    curr := new int[|rb| + 1];
    curr[0] := i;
    BorderCells(ra, rb, i, 0);
    for j := 1 to |rb| + 1
      invariant forall k | 0 <= k < j :: curr[k] == Cell(ra, rb, i, k)
    {
      var cost := 1;
      if ra[i - 1] == rb[j - 1] {
        cost := 0;
      }
      NextCell(ra, rb, i, j);
      curr[j] := Min3(curr[j - 1] + 1, prev[j] + 1, prev[j - 1] + cost);
    }
  }

  /** The outer loop: `prev` is row i - 1, and the last cell of the last row is the answer. */
  method TwoRowDistance(ra: string, rb: string) returns (dist: int)
    ensures dist == Distance(ra, rb)
  {
    var la, lb := |ra|, |rb|;
    var prev := new int[lb + 1](j => j);
    forall j | 0 <= j <= lb ensures prev[j] == Cell(ra, rb, 0, j) {
      BorderCells(ra, rb, 0, j);
    }
    for i := 1 to la + 1
      invariant prev.Length == lb + 1
      invariant forall j | 0 <= j <= lb :: prev[j] == Cell(ra, rb, i - 1, j)
    {
      prev := NextRow(prev, ra, rb, i);
    }
    assert ra[..la] == ra && rb[..lb] == rb;
    dist := prev[lb];
  }

  lemma RatioBounds(d: nat, m: nat)
    requires 0 < m && d <= m
    ensures 0.0 <= Ratio(d, m) <= 1.0
    ensures Ratio(d, m) == 1.0 <==> d == 0
    ensures Ratio(d, m) == 0.0 <==> d == m
    ensures Ratio(d, m) >= 0.85 <==> 20 * d <= 3 * m
  {
    var q := d as real / m as real;
    assert q * m as real == d as real;
    if q <= 0.15 {
      assert q * m as real <= 0.15 * m as real;
    } else {
      assert q * m as real > 0.15 * m as real;
    }
  }

  method StringSimilarity(a: string, b: string) returns (ratio: real)
    ensures ratio == Similarity(TrimSpace(a), TrimSpace(b))
  {
    var ra, rb := TrimSpace(a), TrimSpace(b);
    var la, lb := |ra|, |rb|;
    if la == 0 && lb == 0 {
      return 1.0;
    }
    if la == 0 || lb == 0 {
      RatioBounds(Max(la, lb), Max(la, lb));
      return 0.0;
    }
    var dist := TwoRowDistance(ra, rb);
    var maxLen := la;
    if lb > maxLen {
      maxLen := lb;
    }
    ratio := Ratio(dist, maxLen);
  }

  /** The ratio is a number from 0 to 1, reaches 1 exactly on equal names, and clears the worker's
      85 percent threshold exactly when 20 edits weigh at most 3 runes. */
  lemma SimilarityMeaning(a: string, b: string)
    ensures 0.0 <= Similarity(a, b) <= 1.0
    ensures Similarity(a, b) == 1.0 <==> a == b
    ensures Similarity(a, b) == Similarity(b, a)
    ensures Similarity(a, b) >= 0.85 <==> 20 * Distance(a, b) <= 3 * Max(|a|, |b|)
    ensures a != "" && |a| >= |b| ==> Similarity(a, b) == 1.0 - Distance(a, b) as real / |a| as real
  {
    DistanceBounds(a, b);
    DistanceZeroIffEqual(a, b);
    DistanceSymmetric(a, b);
    if a != "" || b != "" {
      RatioBounds(Distance(a, b), Max(|a|, |b|));
    }
  }
}
