/**
  The lexicographic order on pairs of 64-bit keys, stated independently of
  the tile comparators, and what strict sortedness by such a key implies
  for the tile index arrays built with `std::sort`.
*/
module Lex {
  import opened FixedWidth

  /** A sort key: the primary coordinate first, the tie-breaker second. */
  type Key = (int64, int64)

  /** Reference definition: `p` comes strictly before `q`. */
  predicate LexLess(p: Key, q: Key) {
    p.0 < q.0 || (p.0 == q.0 && p.1 < q.1)
  }

  /** `LexLess` is a strict total order on keys. */
  lemma LexStrictTotal(p: Key, q: Key, r: Key)
    ensures !LexLess(p, p)
    ensures LexLess(p, q) ==> !LexLess(q, p)
    ensures LexLess(p, q) && LexLess(q, r) ==> LexLess(p, r)
    ensures p != q <==> (LexLess(p, q) || LexLess(q, p))
  {
  }

  /** Every element of `s` comes strictly after the one before it. */
  ghost predicate StrictlySortedBy<T>(s: seq<T>, key: T -> Key) {
    forall i, j :: 0 <= i < j < |s| ==> LexLess(key(s[i]), key(s[j]))
  }

  /** A strictly sorted array holds no key twice, so no element twice. */
  lemma StrictlySortedDistinct<T>(s: seq<T>, key: T -> Key, i: int, j: int)
    requires StrictlySortedBy(s, key)
    requires 0 <= i < |s| && 0 <= j < |s| && i != j
    ensures key(s[i]) != key(s[j]) && s[i] != s[j]
  {
    if i < j {
      LexStrictTotal(key(s[i]), key(s[j]), key(s[j]));
    } else {
      LexStrictTotal(key(s[j]), key(s[i]), key(s[i]));
    }
  }

  /** The head of a strictly sorted array comes before every other element. */
  lemma HeadIsLeast<T>(s: seq<T>, key: T -> Key, x: T)
    requires StrictlySortedBy(s, key)
    requires x in s
    ensures x == s[0] || LexLess(key(s[0]), key(x))
  {
    var i :| 0 <= i < |s| && s[i] == x;
    if i > 0 {
      assert LexLess(key(s[0]), key(s[i]));
    }
  }

  /** The tail of a strictly sorted array holds exactly the elements other than its head. */
  lemma TailMembers<T>(s: seq<T>, key: T -> Key, x: T)
    requires StrictlySortedBy(s, key)
    requires |s| > 0
    ensures x in s[1..] <==> (x in s && x != s[0])
  {
    if x in s[1..] {
      var i :| 0 <= i < |s[1..]| && s[1..][i] == x;
      StrictlySortedDistinct(s, key, 0, i + 1);
    }
    if x in s && x != s[0] {
      var i :| 0 <= i < |s| && s[i] == x;
      assert s[1..][i - 1] == x;
    }
  }

  /**
    Two strictly sorted arrays with the same elements are the same array:
    the order a strict key comparison induces on an index leaves no choice.
  */
  lemma {:induction false} StrictlySortedUnique<T>(s: seq<T>, t: seq<T>, key: T -> Key)
    requires StrictlySortedBy(s, key) && StrictlySortedBy(t, key)
    requires forall x :: x in s <==> x in t
    ensures s == t
    decreases |s|
  {
    if |s| > 0 {
      assert s[0] in t;
    }
    if |t| > 0 {
      assert t[0] in s;
    }
    if |s| > 0 {
      HeadIsLeast(s, key, t[0]);
      HeadIsLeast(t, key, s[0]);
      LexStrictTotal(key(s[0]), key(t[0]), key(s[0]));
      assert s[0] == t[0];
      forall x
        ensures x in s[1..] <==> x in t[1..]
      {
        TailMembers(s, key, x);
        TailMembers(t, key, x);
      }
      assert StrictlySortedBy(s[1..], key) by {
        forall i, j | 0 <= i < j < |s[1..]|
          ensures LexLess(key(s[1..][i]), key(s[1..][j]))
        {
          assert s[1..][i] == s[i + 1] && s[1..][j] == s[j + 1];
        }
      }
      assert StrictlySortedBy(t[1..], key) by {
        forall i, j | 0 <= i < j < |t[1..]|
          ensures LexLess(key(t[1..][i]), key(t[1..][j]))
        {
          assert t[1..][i] == t[i + 1] && t[1..][j] == t[j + 1];
        }
      }
      StrictlySortedUnique(s[1..], t[1..], key);
      assert s == [s[0]] + s[1..] && t == [t[0]] + t[1..];
    }
  }
}
