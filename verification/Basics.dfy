/** Types shared by the models. */
module Basics {

  datatype Option<+T> = None | Some(value: T)

  type byte = x: int | 0 <= x < 256
  type uint32 = x: int | 0 <= x < 0x1_0000_0000
  type positive = x: int | 0 < x witness 1

  /** How many times `x` occurs in `s`. */
  function Times<T(==)>(s: seq<T>, x: T): (n: nat) {
    if s == [] then 0 else Times(s[..|s| - 1], x) + if s[|s| - 1] == x then 1 else 0
  }

  lemma {:induction false} TimesAppend<T>(s: seq<T>, y: T, x: T)
    ensures Times(s + [y], x) == Times(s, x) + if y == x then 1 else 0
  {
    assert (s + [y])[..|s|] == s;
  }

  lemma {:induction false} TimesConcat<T>(s: seq<T>, t: seq<T>, x: T)
    ensures Times(s + t, x) == Times(s, x) + Times(t, x)
  {
    if t == [] {
      assert s + t == s;
    } else {
      assert (s + t)[..|s + t| - 1] == s + t[..|t| - 1];
      TimesConcat(s, t[..|t| - 1], x);
    }
  }

  /** Removing the element at `i` removes one occurrence of it and nothing else. */
  lemma {:induction false} TimesRemove<T>(s: seq<T>, i: nat, x: T)
    requires i < |s|
    ensures Times(s, x) == Times(s[..i] + s[i + 1..], x) + if s[i] == x then 1 else 0
  {
    TimesConcat(s[..i], s[i + 1..], x);
    TimesConcat(s[..i], s[i..], x);
    TimesConcat([s[i]], s[i + 1..], x);
    assert s == s[..i] + s[i..] && s[i..] == [s[i]] + s[i + 1..];
    assert [s[i]][..0] == [];
  }

  lemma {:induction false} TimesMember<T>(s: seq<T>, x: T)
    ensures x in s <==> Times(s, x) > 0
  {
    if s == [] {
    } else {
      TimesMember(s[..|s| - 1], x);
      assert s == s[..|s| - 1] + [s[|s| - 1]];
    }
  }

  /** The numbers below `n`. */
  function Range(n: nat): (r: set<nat>)
    ensures forall i: nat :: i in r <==> i < n
  {
    if n == 0 then {} else Range(n - 1) + {n - 1}
  }

  // -------------------------------------------------------------- arithmetic

  lemma QuotientUnique(x: int, q: int, r: int, d: int)
    requires 0 <= r < d && x == q * d + r
    ensures x / d == q && x % d == r
  {
    var q' := x / d;
    assert (q - q') * d == x % d - r;
    assert q - q' >= 1 ==> (q - q') * d >= d;
    assert q - q' <= -1 ==> (q - q') * d <= -d;
  }

  lemma QuotientBound(x: nat, q: nat, d: nat)
    requires d > 0
    ensures x <= q * d ==> x / d <= q
    ensures q * d <= x ==> q <= x / d
  {
    assert x / d >= q + 1 ==> (x / d) * d >= (q + 1) * d;
    assert x / d + 1 <= q ==> (x / d + 1) * d <= q * d;
  }
}
