/** Rune sequences: their ends, and the trimming of white space. */
module Text {

  function Butlast(s: string): string
    requires s != ""
  {
    s[..|s| - 1]
  }

  function Last(s: string): char
    requires s != ""
  {
    s[|s| - 1]
  }

  /** White space as Unicode's White_Space property has it. */
  predicate IsSpace(c: char) {
    var n := c as int;
    0x09 <= n <= 0x0D || n == 0x20 || n == 0x85 || n == 0xA0 || n == 0x1680 || 0x2000 <= n <= 0x200A
    || n == 0x2028 || n == 0x2029 || n == 0x202F || n == 0x205F || n == 0x3000
  }

  function TrimSpace(s: string): (t: string)
    ensures t == "" || (!IsSpace(t[0]) && !IsSpace(Last(t)))
    decreases |s|
  {
    if s == "" then ""
    else if IsSpace(s[0]) then TrimSpace(s[1..])
    else if IsSpace(Last(s)) then TrimSpace(Butlast(s))
    else s
  }

  lemma TrimIsFixed(s: string)
    requires s == "" || (!IsSpace(s[0]) && !IsSpace(Last(s)))
    ensures TrimSpace(s) == s
  {
  }

  predicate AllSpace(s: string) {
    forall i | 0 <= i < |s| :: IsSpace(s[i])
  }

  /** Trimming cuts white space from both ends and nothing else. */
  lemma {:induction false} TrimCutsSpace(s: string) returns (left: string, right: string)
    ensures s == left + TrimSpace(s) + right && AllSpace(left) && AllSpace(right)
    decreases |s|
  {
    left, right := "", "";
    if s != "" && IsSpace(s[0]) {
      var l, r := TrimCutsSpace(s[1..]);
      left, right := [s[0]] + l, r;
      OneMoreLeft(s, l, TrimSpace(s[1..]), r);
    } else if s != "" && IsSpace(Last(s)) {
      var l, r := TrimCutsSpace(Butlast(s));
      left, right := l, r + [Last(s)];
      OneMoreRight(s, l, TrimSpace(Butlast(s)), r);
    }
  }

  lemma OneMoreLeft(s: string, l: string, mid: string, r: string)
    requires s != "" && IsSpace(s[0]) && s[1..] == l + mid + r && AllSpace(l)
    ensures s == ([s[0]] + l) + mid + r && AllSpace([s[0]] + l)
  {
    assert s == [s[0]] + s[1..];
  }

  lemma OneMoreRight(s: string, l: string, mid: string, r: string)
    requires s != "" && IsSpace(Last(s)) && Butlast(s) == l + mid + r && AllSpace(r)
    ensures s == l + mid + (r + [Last(s)]) && AllSpace(r + [Last(s)])
  {
    assert s == Butlast(s) + [Last(s)];
  }

  /** Text that begins and ends without white space is left whole inside whatever surrounds it. */
  lemma {:induction false} TrimKeepsCore(pre: string, core: string, post: string) returns (pre': string, post': string)
    requires core != "" && !IsSpace(core[0]) && !IsSpace(Last(core))
    ensures TrimSpace(pre + (core + post)) == pre' + (core + post')
    ensures |pre'| <= |pre| && pre' == pre[|pre| - |pre'|..] && post' <= post
    decreases |pre| + |post|
  {
    var s := pre + (core + post);
    EndsOf(pre, core, post);
    if IsSpace(s[0]) {
      pre', post' := TrimKeepsCore(pre[1..], core, post);
    } else if IsSpace(Last(s)) {
      pre', post' := TrimKeepsCore(pre, core, Butlast(post));
    } else {
      pre', post' := pre, post;
    }
  }

  /** What stands at the ends of such a text, and what is left without them. */
  lemma EndsOf(pre: string, core: string, post: string)
    requires core != ""
    ensures var s := pre + (core + post);
      && s[0] == (if pre == "" then core[0] else pre[0])
      && Last(s) == (if post == "" then Last(core) else Last(post))
      && (pre != "" ==> s[1..] == pre[1..] + (core + post))
      && (post != "" ==> Butlast(s) == pre + (core + Butlast(post)))
  {
  }
}
