/** Sequences of turns. A sequence is spread over a pool when nobody has a second turn before everybody
    else had one; that is the same as no short stretch repeating anybody. */
module RoundRobin {
  import opened Records
  import opened Ids

  /** Between two turns of one member of the pool every other member has a turn. */
  ghost predicate Spread(turns: seq<Id>, pool: set<Id>) {
    forall i, j, q | 0 <= i < j < |turns| && turns[i] == turns[j] && q in pool :: q in turns[i..j]
  }

  /** No stretch of at most |pool| consecutive turns gives anybody two. */
  ghost predicate NobodyTwiceInAWindow(turns: seq<Id>, pool: set<Id>) {
    forall i, j | 0 <= i <= j <= |turns| && j - i <= |pool| :: Distinct(turns[i..j])
  }

  lemma SliceOfSlice(xs: seq<Id>, i: nat, j: nat, a: nat, b: nat)
    requires i <= j <= |xs| && a <= b <= j - i
    ensures xs[i..j][a..b] == xs[i + a..i + b]
  {
    var l, r := xs[i..j][a..b], xs[i + a..i + b];
    forall k | 0 <= k < b - a ensures l[k] == r[k] {
      assert xs[i..j][a + k] == xs[i + a + k];
    }
  }

  lemma SpreadWindow(turns: seq<Id>, pool: set<Id>, i: nat, j: nat)
    requires Spread(turns, pool) && i <= j <= |turns|
    ensures Spread(turns[i..j], pool)
  {
    var w := turns[i..j];
    forall a, b, q | 0 <= a < b < |w| && w[a] == w[b] && q in pool ensures q in w[a..b] {
      SliceOfSlice(turns, i, j, a, b);
      assert turns[i + a] == turns[i + b];
      assert q in turns[i + a..i + b];
    }
  }

  lemma SpreadIsDistinct(turns: seq<Id>, pool: set<Id>)
    requires Spread(turns, pool) && |turns| <= |pool|
    ensures Distinct(turns)
  {
    forall i, j | 0 <= i < j < |turns| ensures turns[i] != turns[j] {
      if turns[i] == turns[j] {
        FewElements(turns[i..j]);
        SubsetIsSmaller(pool, Elements(turns[i..j]));
      }
    }
  }

  /** As many distinct turns as the pool has members are one turn for each. */
  lemma FullRound(turns: seq<Id>, pool: set<Id>)
    requires Distinct(turns) && |turns| == |pool| && Elements(turns) <= pool
    ensures Elements(turns) == pool
  {
    DistinctCount(turns);
    SameSize(Elements(turns), pool);
  }

  lemma RepeatShows(turns: seq<Id>, i: nat, j: nat)
    requires i < j < |turns| && turns[i] == turns[j]
    ensures !Distinct(turns[i..j + 1])
  {
    var w := turns[i..j + 1];
    assert w[0] == w[j - i];
  }

  lemma RepeatIsFar(turns: seq<Id>, pool: set<Id>, i: nat, j: nat)
    requires NobodyTwiceInAWindow(turns, pool) && i < j < |turns| && turns[i] == turns[j]
    ensures i + |pool| <= j
  {
    RepeatShows(turns, i, j);
  }

  /** The two ways to say round robin agree. */
  lemma SpreadIff(turns: seq<Id>, pool: set<Id>)
    requires Elements(turns) <= pool
    ensures Spread(turns, pool) <==> NobodyTwiceInAWindow(turns, pool)
  {
    if Spread(turns, pool) {
      forall i, j | 0 <= i <= j <= |turns| && j - i <= |pool| ensures Distinct(turns[i..j]) {
        SpreadWindow(turns, pool, i, j);
        SpreadIsDistinct(turns[i..j], pool);
      }
    }
    if NobodyTwiceInAWindow(turns, pool) {
      forall i, j, q | 0 <= i < j < |turns| && turns[i] == turns[j] && q in pool ensures q in turns[i..j] {
        RepeatIsFar(turns, pool, i, j);
        var w := turns[i..i + |pool|];
        assert Elements(w) <= Elements(turns);
        FullRound(w, pool);
        assert q in w && w == turns[i..j][..|pool|];
      }
    }
  }

  function Count(xs: seq<Id>, r: Id): nat {
    if xs == [] then 0 else (if xs[0] == r then 1 else 0) + Count(xs[1..], r)
  }

  lemma {:induction false} CountParts(xs: seq<Id>, k: nat, r: Id)
    requires k <= |xs|
    ensures Count(xs, r) == Count(xs[..k], r) + Count(xs[k..], r)
    decreases k
  {
    if k == 0 {
      assert xs[0..] == xs && xs[..0] == [];
    } else {
      CountParts(xs[1..], k - 1, r);
      assert xs[1..][..k - 1] == xs[..k][1..] && xs[1..][k - 1..] == xs[k..];
    }
  }

  lemma {:induction false} CountPositive(xs: seq<Id>, r: Id)
    ensures Count(xs, r) > 0 <==> r in xs
    decreases |xs|
  {
    if xs != [] {
      CountPositive(xs[1..], r);
      assert xs == [xs[0]] + xs[1..];
    }
  }

  function FirstTurn(xs: seq<Id>, q: Id): (k: nat)
    requires q in xs
    ensures k < |xs| && xs[k] == q && q !in xs[..k]
  {
    if xs[0] == q then 0
    else
      var k := FirstTurn(xs[1..], q);
      assert xs[..k + 1] == [xs[0]] + xs[1..][..k];
      k + 1
  }

  /** Up to its second turn a member has had one, and everybody else at least one. */
  lemma OneRound(turns: seq<Id>, pool: set<Id>, q: Id, r: Id) returns (j: nat)
    requires Spread(turns, pool) && r in pool && q != r && turns != [] && turns[0] == q && q in turns[1..]
    ensures 0 < j < |turns| && Count(turns[..j], q) == 1 && Count(turns[..j], r) >= 1
  {
    j := 1 + FirstTurn(turns[1..], q);
    assert turns[..j][1..] == turns[1..][..j - 1];
    CountPositive(turns[..j][1..], q);
    assert turns[0] == turns[j] && turns[0..j] == turns[..j];
    CountPositive(turns[..j], r);
  }

  lemma SpreadTail(turns: seq<Id>, pool: set<Id>, k: nat)
    requires Spread(turns, pool) && k <= |turns|
    ensures Spread(turns[k..], pool)
  {
    assert turns[k..] == turns[k..|turns|];
    SpreadWindow(turns, pool, k, |turns|);
  }

  /** In spread turns two members of the pool never differ by more than one. */
  lemma {:induction false} SpreadCounts(turns: seq<Id>, pool: set<Id>, q: Id, r: Id)
    requires Spread(turns, pool) && r in pool
    ensures Count(turns, q) <= Count(turns, r) + 1
    decreases |turns|
  {
    if turns == [] || q == r {
      return;
    }
    if turns[0] != q {
      SpreadTail(turns, pool, 1);
      SpreadCounts(turns[1..], pool, q, r);
    } else if q in turns[1..] {
      var j := OneRound(turns, pool, q, r);
      SpreadTail(turns, pool, j);
      SpreadCounts(turns[j..], pool, q, r);
      CountParts(turns, j, q);
      CountParts(turns, j, r);
    } else {
      CountPositive(turns[1..], q);
    }
  }

  /** What comes after the last turn of r. */
  function AfterLast(turns: seq<Id>, r: Id): (rest: seq<Id>)
    requires r in turns
    ensures |rest| < |turns| && r !in rest
    ensures turns[|turns| - |rest| - 1] == r && rest == turns[|turns| - |rest|..]
  {
    if r in turns[1..] then AfterLast(turns[1..], r) else turns[1..]
  }

  /** If somebody's next turn keeps the turns spread, everybody else had one after his last. */
  lemma SpreadNext(turns: seq<Id>, pool: set<Id>, r: Id, q: Id)
    requires Spread(turns + [r], pool) && r in turns && q in pool && q != r
    ensures q in AfterLast(turns, r)
  {
    var rest := AfterLast(turns, r);
    var i, j := |turns| - |rest| - 1, |turns|;
    var all := turns + [r];
    assert all[i] == all[j] && all[i..j] == [r] + rest;
  }

  /** If everybody else had a turn after r's last, the next turn may be his. */
  lemma AfterLastSpreads(turns: seq<Id>, i: nat, q: Id)
    requires i < |turns| && q in AfterLast(turns, turns[i])
    ensures q in turns[i..]
  {
    var rest := AfterLast(turns, turns[i]);
    var k := |turns| - |rest|;
    forall x | k <= x < |turns| ensures turns[x] in rest {
      assert rest[x - k] == turns[x];
    }
    assert turns[k..] == turns[i..][k - i..];
  }

  /** A repetition in a short stretch shows in a stretch of exactly one turn per member, if there is room. */
  lemma WideWindow(turns: seq<Id>, pool: set<Id>) returns (i: nat)
    requires !NobodyTwiceInAWindow(turns, pool) && |pool| <= |turns|
    ensures i + |pool| <= |turns| && !Distinct(turns[i..i + |pool|])
    ensures Elements(turns[i..i + |pool|]) != pool
  {
    var p, q := FindRepeat(turns, pool);
    i := if p + |pool| <= |turns| then p else |turns| - |pool|;
    var wide := turns[i..i + |pool|];
    assert wide[p - i] == turns[p] && wide[q - i] == turns[q];
    RepeatLosesOne(wide, p - i, q - i);
  }

  lemma FindRepeat(turns: seq<Id>, pool: set<Id>) returns (p: nat, q: nat)
    requires !NobodyTwiceInAWindow(turns, pool)
    ensures p < q < |turns| && q < p + |pool| && turns[p] == turns[q]
  {
    var a: nat, b: nat :| a <= b <= |turns| && b - a <= |pool| && !Distinct(turns[a..b]);
    var w := turns[a..b];
    var x: nat, y: nat :| x < y < |w| && w[x] == w[y];
    p, q := a + x, a + y;
  }

  lemma RepeatLosesOne(xs: seq<Id>, i: nat, j: nat)
    requires i < j < |xs| && xs[i] == xs[j]
    ensures |Elements(xs)| < |xs|
  {
    var ys := xs[..j] + xs[j + 1..];
    forall x | x in xs ensures x in ys {
      var k :| 0 <= k < |xs| && xs[k] == x;
      assert ys[if k < j then k else if k == j then i else k - 1] == x;
    }
    assert Elements(xs) == Elements(ys);
    FewElements(ys);
  }
}
