/**
  The filtering pass of `CameraMetadata::removePermissionEntries`
  (camera/CameraMetadata.cpp:479-492): one vector sorted as signed 32-bit integers is
  subtracted, by `std::set_difference`, from another sorted as unsigned ones.

  Both vectors are held as 32-bit patterns, 0 <= x < 2^32; a pattern from 2^31 up is a
  negative number when read as signed.
*/
module KeyDifference {
  import opened Basics

  const HALF := 0x8000_0000

  function Signed(x: int): int { if x < HALF then x else x - 0x1_0000_0000 }

  function Unsigned(x: int): int { x }

  ghost predicate Patterns(s: seq<int>) { forall i :: 0 <= i < |s| ==> 0 <= s[i] < 0x1_0000_0000 }

  // -------------------------------------------------------------------- sorting

  ghost predicate SortedBy(key: int -> int, s: seq<int>) {
    forall i, j :: 0 <= i < j < |s| ==> key(s[i]) <= key(s[j])
  }

  ghost predicate Ascending(s: seq<int>) { forall i, j :: 0 <= i < j < |s| ==> s[i] <= s[j] }

  function Place(key: int -> int, s: seq<int>, x: int): seq<int> {
    if s == [] || key(x) <= key(s[0]) then [x] + s else [s[0]] + Place(key, s[1..], x)
  }

  /** `std::sort` under the order of `key`. */
  function SortBy(key: int -> int, s: seq<int>): seq<int> {
    if s == [] then [] else Place(key, SortBy(key, s[1..]), s[0])
  }

  lemma {:induction false} TimesFirst(s: seq<int>, x: int)
    requires s != []
    ensures Times(s, x) == (if s[0] == x then 1 else 0) + Times(s[1..], x)
  {
    TimesConcat([s[0]], s[1..], x);
    assert s == [s[0]] + s[1..];
    assert [s[0]][..0] == [];
  }

  lemma {:induction false} PlaceTimes(key: int -> int, s: seq<int>, v: int, x: int)
    ensures Times(Place(key, s, v), x) == Times(s, x) + if v == x then 1 else 0
  {
    var r := Place(key, s, v);
    TimesFirst(r, x);
    if s == [] || key(v) <= key(s[0]) {
      assert r[1..] == s;
    } else {
      TimesFirst(s, x);
      PlaceTimes(key, s[1..], v, x);
      assert r[1..] == Place(key, s[1..], v);
    }
  }

  lemma {:induction false} PlaceSorted(key: int -> int, s: seq<int>, v: int)
    requires SortedBy(key, s)
    ensures SortedBy(key, Place(key, s, v))
  {
    if s != [] && key(v) > key(s[0]) {
      var rest := Place(key, s[1..], v);
      PlaceSorted(key, s[1..], v);
      forall i | 0 <= i < |rest| ensures key(s[0]) <= key(rest[i]) {
        TimesMember(rest, rest[i]);
        PlaceTimes(key, s[1..], v, rest[i]);
        TimesMember(s[1..], rest[i]);
      }
    }
  }

  /** Sorting gives a sorted permutation. */
  lemma {:induction false} SortFacts(key: int -> int, s: seq<int>)
    ensures SortedBy(key, SortBy(key, s))
    ensures forall x :: Times(SortBy(key, s), x) == Times(s, x)
    ensures forall x :: x in SortBy(key, s) <==> x in s
  {
    if s == [] {
    } else {
      SortFacts(key, s[1..]);
      PlaceSorted(key, SortBy(key, s[1..]), s[0]);
      forall x ensures Times(SortBy(key, s), x) == Times(s, x) {
        PlaceTimes(key, SortBy(key, s[1..]), s[0], x);
        TimesFirst(s, x);
      }
    }
    forall x ensures x in SortBy(key, s) <==> x in s {
      TimesMember(SortBy(key, s), x);
      TimesMember(s, x);
    }
  }

  // ------------------------------------------------------------- set_difference

  /** The merge of `std::set_difference`, comparing patterns as unsigned on both sides. */
  function Difference(keys: seq<int>, removed: seq<int>): seq<int>
    decreases |keys| + |removed|
  {
    if keys == [] || removed == [] then keys
    else if keys[0] < removed[0] then [keys[0]] + Difference(keys[1..], removed)
    else if removed[0] < keys[0] then Difference(keys, removed[1..])
    else Difference(keys[1..], removed[1..])
  }

  /** The elements of `s` that are no smaller than any element before them. */
  function Peaks(s: seq<int>, floor: int): seq<int> {
    if s == [] then []
    else if s[0] < floor then Peaks(s[1..], floor)
    else [s[0]] + Peaks(s[1..], s[0])
  }

  function Minus(a: nat, b: nat): nat { if a <= b then 0 else a - b }

  lemma {:induction false} PeaksAtLeast(s: seq<int>, floor: int, x: int)
    requires x < floor
    ensures Times(Peaks(s, floor), x) == 0
  {
    if s == [] {
    } else {
      if s[0] < floor {
        PeaksAtLeast(s[1..], floor, x);
      } else {
        PeaksAtLeast(s[1..], s[0], x);
        TimesFirst(Peaks(s, floor), x);
        assert Peaks(s, floor)[1..] == Peaks(s[1..], s[0]);
      }
    }
  }

  lemma {:induction false} NoneBelow(s: seq<int>, x: int)
    requires forall i :: 0 <= i < |s| ==> x < s[i]
    ensures Times(s, x) == 0
  {
    TimesMember(s, x);
  }

  /** A step over a peak. */
  lemma {:induction false} PeaksStep(s: seq<int>, floor: int, x: int)
    requires s != [] && floor <= s[0]
    ensures Times(Peaks(s, floor), x) == (if s[0] == x then 1 else 0) + Times(Peaks(s[1..], s[0]), x)
  {
    TimesFirst(Peaks(s, floor), x);
    assert Peaks(s, floor)[1..] == Peaks(s[1..], s[0]);
  }

  /** Against any second operand, sorted or not, the merge takes away its peaks and nothing else. */
  lemma {:induction false} DifferenceTakesPeaks(keys: seq<int>, removed: seq<int>, floor: int, x: int)
    requires Ascending(keys)
    requires forall i :: 0 <= i < |keys| ==> floor <= keys[i]
    ensures Times(Difference(keys, removed), x) == Minus(Times(keys, x), Times(Peaks(removed, floor), x))
    decreases |keys| + |removed|
  {
    if keys == [] || removed == [] {
    } else if keys[0] < removed[0] {
      DifferenceTakesPeaks(keys[1..], removed, floor, x);
      assert Difference(keys, removed)[1..] == Difference(keys[1..], removed);
      TimesFirst(Difference(keys, removed), x);
      TimesFirst(keys, x);
      PeaksStep(removed, floor, x);
      if x == keys[0] { PeaksAtLeast(removed[1..], removed[0], x); }
    } else if removed[0] < keys[0] {
      if removed[0] < floor {
        DifferenceTakesPeaks(keys, removed[1..], floor, x);
      } else {
        DifferenceTakesPeaks(keys, removed[1..], removed[0], x);
        PeaksStep(removed, floor, x);
        if x == removed[0] { NoneBelow(keys, x); }
      }
    } else {
      DifferenceTakesPeaks(keys[1..], removed[1..], removed[0], x);
      TimesFirst(keys, x);
      PeaksStep(removed, floor, x);
    }
  }

  lemma {:induction false} DifferenceFrom(keys: seq<int>, removed: seq<int>, low: int)
    requires Ascending(keys)
    requires forall i :: 0 <= i < |keys| ==> low <= keys[i]
    ensures Ascending(Difference(keys, removed))
    ensures forall i :: 0 <= i < |Difference(keys, removed)| ==> low <= Difference(keys, removed)[i]
    decreases |keys| + |removed|
  {
    if keys == [] || removed == [] {
    } else if keys[0] < removed[0] {
      DifferenceFrom(keys[1..], removed, keys[0]);
    } else if removed[0] < keys[0] {
      DifferenceFrom(keys, removed[1..], low);
    } else {
      DifferenceFrom(keys[1..], removed[1..], low);
    }
  }

  // ----------------------------------------------- peaks of a signed-sorted list

  lemma {:induction false} AscendingAllPeaks(s: seq<int>, floor: int)
    requires Ascending(s) && (s == [] || floor <= s[0])
    ensures Peaks(s, floor) == s
  {
    if s == [] {
    } else {
      AscendingAllPeaks(s[1..], s[0]);
      assert s == [s[0]] + s[1..];
    }
  }

  /** Above a vendor tag only vendor tags are peaks. */
  lemma {:induction false} PeaksAboveHalf(s: seq<int>, floor: int, x: int)
    requires Patterns(s) && SortedBy(Signed, s) && HALF <= floor
    requires forall i :: 0 <= i < |s| && HALF <= s[i] ==> floor <= s[i]
    ensures Times(Peaks(s, floor), x) == if HALF <= x then Times(s, x) else 0
  {
    if s == [] {
    } else {
      TimesFirst(s, x);
      assert Patterns(s[1..]) && SortedBy(Signed, s[1..]);
      if s[0] < floor {
        PeaksAboveHalf(s[1..], floor, x);
      } else {
        forall i | 0 <= i < |s[1..]| && HALF <= s[1..][i] ensures s[0] <= s[1..][i] {
          assert Signed(s[0]) <= Signed(s[i + 1]);
        }
        PeaksAboveHalf(s[1..], s[0], x);
        PeaksStep(s, floor, x);
      }
    }
  }

  predicate AnyVendor(s: seq<int>) { exists i :: 0 <= i < |s| && HALF <= s[i] }

  /** The peaks of a list sorted as signed: its vendor tags if there are any, else all of it. */
  lemma {:induction false} SignedPeaks(s: seq<int>, x: int)
    requires Patterns(s) && SortedBy(Signed, s)
    ensures Times(Peaks(s, 0), x) == if AnyVendor(s) && x < HALF then 0 else Times(s, x)
  {
    if AnyVendor(s) {
      var i :| 0 <= i < |s| && HALF <= s[i];
      assert Signed(s[0]) <= Signed(s[i]);
      assert HALF <= s[0];
      forall j | 0 <= j < |s| && HALF <= s[j] ensures s[0] <= s[j] {
        assert Signed(s[0]) <= Signed(s[j]);
      }
      PeaksAboveHalf(s, s[0], x);
      assert Peaks(s, 0) == [s[0]] + Peaks(s[1..], s[0]) == Peaks(s, s[0]);
    } else {
      forall i, j | 0 <= i < j < |s| ensures s[i] <= s[j] {
        assert Signed(s[i]) <= Signed(s[j]);
      }
      AscendingAllPeaks(s, 0);
    }
  }

  // ----------------------------------------------------------------- the filter

  /** What the pass makes of the available keys. */
  function Filter(keys: seq<int>, removed: seq<int>): seq<int> {
    Difference(SortBy(Unsigned, keys), SortBy(Signed, removed))
  }

  /** Exactly what is left, for all keys and all removed tags. */
  lemma {:induction false} FilterLeaves(keys: seq<int>, removed: seq<int>, x: int)
    requires Patterns(keys) && Patterns(removed)
    ensures Ascending(Filter(keys, removed))
    ensures Times(Filter(keys, removed), x)
         == if AnyVendor(removed) && x < HALF then Times(keys, x) else Minus(Times(keys, x), Times(removed, x))
  {
    var k, r := SortBy(Unsigned, keys), SortBy(Signed, removed);
    SortFacts(Unsigned, keys);
    SortFacts(Signed, removed);
    assert Ascending(k) by {
      forall i, j | 0 <= i < j < |k| ensures k[i] <= k[j] { assert Unsigned(k[i]) <= Unsigned(k[j]); }
    }
    SamePatterns(k, keys);
    SamePatterns(r, removed);
    SameVendors(r, removed);
    DifferenceFrom(k, r, 0);
    DifferenceTakesPeaks(k, r, 0, x);
    SignedPeaks(r, x);
  }

  lemma SamePatterns(s: seq<int>, t: seq<int>)
    requires Patterns(t)
    requires forall x :: x in s <==> x in t
    ensures Patterns(s)
  {
    forall i | 0 <= i < |s| ensures 0 <= s[i] < 0x1_0000_0000 {
      var x := s[i];
      assert x in t;
    }
  }

  lemma SameVendors(s: seq<int>, t: seq<int>)
    requires forall x :: x in s <==> x in t
    ensures AnyVendor(s) <==> AnyVendor(t)
  {
    if AnyVendor(s) { var i :| 0 <= i < |s| && HALF <= s[i]; assert s[i] in t; }
    if AnyVendor(t) { var i :| 0 <= i < |t| && HALF <= t[i]; assert t[i] in s; }
  }

  /** The promise: every key is left as many times as it was listed more than removed. */
  ghost predicate Subtracts(keys: seq<int>, removed: seq<int>, result: seq<int>) {
    forall x :: Times(result, x) == Minus(Times(keys, x), Times(removed, x))
  }

  /** No vendor tag was removed, or no removed built-in tag is among the keys. */
  predicate OneOrderSuffices(keys: seq<int>, removed: seq<int>) {
    !AnyVendor(removed) || forall i :: 0 <= i < |removed| && removed[i] < HALF ==> removed[i] !in keys
  }

  /**
    The two orders disagree on vendor tags.  The pass subtracts the removed tags exactly when
    they do not mix a vendor tag with a built-in tag that is among the keys.
  */
  lemma FilterExactlyWhen(keys: seq<int>, removed: seq<int>)
    requires Patterns(keys) && Patterns(removed)
    ensures Subtracts(keys, removed, Filter(keys, removed)) <==> OneOrderSuffices(keys, removed)
  {
    var out := Filter(keys, removed);
    if OneOrderSuffices(keys, removed) {
      forall x ensures Times(out, x) == Minus(Times(keys, x), Times(removed, x)) {
        FilterLeaves(keys, removed, x);
        TimesMember(keys, x);
        TimesMember(removed, x);
      }
    } else {
      var i :| 0 <= i < |removed| && removed[i] < HALF && removed[i] in keys;
      var x := removed[i];
      FilterLeaves(keys, removed, x);
      TimesMember(keys, x);
      TimesMember(removed, x);
      assert Times(out, x) != Minus(Times(keys, x), Times(removed, x));
    }
  }

  /** One vendor tag and one built-in tag: the built-in tag is gone, yet still listed as available. */
  lemma MixedTagsStayListed()
    ensures Filter([5, HALF], [HALF, 5]) == [5]
  {
    assert SortBy(Unsigned, [5, HALF]) == [5, HALF] by {
      assert SortBy(Unsigned, [HALF]) == [HALF];
      assert [5, HALF][1..] == [HALF];
    }
    assert SortBy(Signed, [HALF, 5]) == [HALF, 5] by {
      assert SortBy(Signed, [5]) == [5];
      assert [HALF, 5][1..] == [5];
    }
    assert Difference([5, HALF], [HALF, 5]) == [5] + Difference([HALF], [HALF, 5]);
    assert Difference([HALF], [HALF, 5]) == Difference([], [5]);
  }
}
