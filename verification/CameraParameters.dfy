/**
  camera/CameraParameters.cpp keeps its pairs in a `KeyedVector`, sorted by key;
  camera/CameraParameters2.cpp keeps them in the order they were set.  Both print and
  parse the same text, but the second one keeps repeated keys when it parses.
*/
module CameraParametersModel {
  import opened Basics
  import opened SortedVectors
  import opened ParameterText

  /** `set` refuses '=' and ';' in a key or a value. */
  predicate Clean(s: string) { '=' !in s && ';' !in s }

  // ------------------------------------------------------------ sorted variant

  function SortedUnflatten(s: string): Pairs { AddAll(StrLess, Parse(s)) }

  function SortedSet(m: Pairs, k: string, v: string): Pairs {
    if Clean(k) && Clean(v) then Add(StrLess, m, k, v) else m
  }

  function Without(m: Pairs, k: string): Pairs {
    if m == [] then [] else if m[0].0 == k then m[1..] else [m[0]] + Without(m[1..], k)
  }

  /** `get`: an empty value reads as missing. */
  function SortedGet(m: Pairs, k: string): Option<string> {
    match Find(m, k)
    case None => None
    case Some(v) => if v == "" then None else Some(v)
  }

  // ----------------------------------------------------------- ordered variant

  /** "Same as removing and re-adding": the first pair with that key goes, the new one comes last. */
  function OrderedSet(m: Pairs, k: string, v: string): Pairs {
    if Clean(k) && Clean(v) then Without(m, k) + [(k, v)] else m
  }

  function OrderedGet(m: Pairs, k: string): Option<string> { Find(m, k) }

  /** The place of a key, or None. */
  function IndexOfKey(m: Pairs, k: string): (r: Option<nat>)
    ensures r.Some? ==> r.value < |m|
  {
    if m == [] then None
    else if m[0].0 == k then Some(0)
    else match IndexOfKey(m[1..], k) case None => None case Some(i) => Some(i + 1)
  }

  /** `compareSetOrder`; None for NAME_NOT_FOUND. */
  function CompareSetOrder(m: Pairs, k1: string, k2: string): Option<int> {
    match (IndexOfKey(m, k1), IndexOfKey(m, k2))
    case (Some(i), Some(j)) => Some(if i == j then 0 else if i < j then -1 else 1)
    case _ => None
  }

  // ----------------------------------------------------------------------- runs

  datatype Op = Set(key: string, value: string) | Remove(key: string) | Unflatten(text: string)

  function SortedStep(m: Pairs, op: Op): Pairs {
    match op
    case Set(k, v) => SortedSet(m, k, v)
    case Remove(k) => Without(m, k)
    case Unflatten(s) => SortedUnflatten(s)
  }

  function OrderedStep(m: Pairs, op: Op): Pairs {
    match op
    case Set(k, v) => OrderedSet(m, k, v)
    case Remove(k) => Without(m, k)
    case Unflatten(s) => Parse(s)
  }

  function SortedRun(ops: seq<Op>): Pairs {
    if ops == [] then [] else SortedStep(SortedRun(ops[..|ops| - 1]), ops[|ops| - 1])
  }

  function OrderedRun(ops: seq<Op>): Pairs {
    if ops == [] then [] else OrderedStep(OrderedRun(ops[..|ops| - 1]), ops[|ops| - 1])
  }

  // ------------------------------------------------------------ text round trips

  lemma {:induction false} AddPrintable(m: Pairs, k: string, v: string)
    requires Sorted(StrLess, m) && Printable(m) && PairOk((k, v))
    ensures Sorted(StrLess, Add(StrLess, m, k, v)) && Printable(Add(StrLess, m, k, v))
  {
    OrdersTotal();
    AddKeeps(StrLess, m, k, v);
    var r := Add(StrLess, m, k, v);
    forall i | 0 <= i < |r| ensures PairOk(r[i]) {
      var (x, y) := r[i];
      assert (x, y) in r;
    }
  }

  lemma {:induction false} AddAllPrintable(ps: Pairs)
    requires Printable(ps)
    ensures Sorted(StrLess, AddAll(StrLess, ps)) && Printable(AddAll(StrLess, ps))
  {
    if ps == [] {
    } else {
      AddAllPrintable(ps[..|ps| - 1]);
      AddPrintable(AddAll(StrLess, ps[..|ps| - 1]), ps[|ps| - 1].0, ps[|ps| - 1].1);
    }
  }

  lemma SortedUnflattenPrintable(s: string)
    ensures Sorted(StrLess, SortedUnflatten(s)) && Printable(SortedUnflatten(s))
  {
    ParsedIsPrintable(s);
    AddAllPrintable(Parse(s));
  }

  /** Sorted contents survive flatten and unflatten exactly when every pair is printable. */
  lemma {:induction false} SortedRoundTrip(m: Pairs)
    requires Sorted(StrLess, m)
    ensures SortedUnflatten(Print(m)) == m <==> Printable(m)
  {
    if Printable(m) {
      ParsePrint(m);
      OrdersTotal();
      AddAllSorted(StrLess, m);
    }
    SortedUnflattenPrintable(Print(m));
  }

  /** Text read, printed and read again gives the same contents: for every string, in both variants. */
  lemma {:induction false} ReadPrintRead(s: string)
    ensures SortedUnflatten(Print(SortedUnflatten(s))) == SortedUnflatten(s)
    ensures Parse(Print(Parse(s))) == Parse(s)
  {
    SortedUnflattenPrintable(s);
    SortedRoundTrip(SortedUnflatten(s));
    ParsedIsPrintable(s);
    ParsePrint(Parse(s));
  }

  lemma {:induction false} WithoutFacts(m: Pairs, k: string)
    ensures |Without(m, k)| <= |m|
    ensures Printable(m) ==> Printable(Without(m, k))
    ensures forall p :: p in Without(m, k) ==> p in m
  {
    if m == [] {
    } else {
      WithoutFacts(m[1..], k);
      assert m == [m[0]] + m[1..];
    }
  }

  lemma {:induction false} WithoutSorted(m: Pairs, k: string)
    requires Sorted(StrLess, m)
    ensures Sorted(StrLess, Without(m, k))
  {
    if m != [] && m[0].0 != k {
      WithoutSorted(m[1..], k);
      WithoutFacts(m[1..], k);
      var r := Without(m[1..], k);
      forall j | 0 <= j < |r| ensures StrLess(m[0].0, r[j].0) {
        assert r[j] in r;
        var i :| 0 <= i < |m[1..]| && m[1..][i] == r[j];
      }
    }
  }

  /** Whatever was set, removed or parsed, in any order, the sorted contents survive their own text ... */
  lemma {:induction false} SortedRunSurvives(ops: seq<Op>)
    ensures Sorted(StrLess, SortedRun(ops)) && Printable(SortedRun(ops))
    ensures SortedUnflatten(Print(SortedRun(ops))) == SortedRun(ops)
  {
    if ops == [] {
    } else {
      var m := SortedRun(ops[..|ops| - 1]);
      SortedRunSurvives(ops[..|ops| - 1]);
      match ops[|ops| - 1]
      case Set(k, v) => if Clean(k) && Clean(v) { AddPrintable(m, k, v); }
      case Remove(k) =>
        WithoutFacts(m, k);
        WithoutSorted(m, k);
      case Unflatten(s) => SortedUnflattenPrintable(s);
    }
    SortedRoundTrip(SortedRun(ops));
  }

  /** ... and so do the ordered contents, in the same order. */
  lemma {:induction false} OrderedRunSurvives(ops: seq<Op>)
    ensures Printable(OrderedRun(ops))
    ensures Parse(Print(OrderedRun(ops))) == OrderedRun(ops)
  {
    if ops == [] {
    } else {
      var m := OrderedRun(ops[..|ops| - 1]);
      OrderedRunSurvives(ops[..|ops| - 1]);
      match ops[|ops| - 1]
      case Set(k, v) => WithoutFacts(m, k);
      case Remove(k) => WithoutFacts(m, k);
      case Unflatten(s) => ParsedIsPrintable(s);
    }
    ParsePrint(OrderedRun(ops));
  }

  // ------------------------------------------------------------------ set and get

  /** After a valid `set`, `get` returns the value, unless it is empty; other keys are untouched. */
  lemma SortedSetGet(m: Pairs, k: string, v: string, x: string)
    requires Sorted(StrLess, m) && Clean(k) && Clean(v)
    ensures SortedGet(SortedSet(m, k, v), x) == if x != k then SortedGet(m, x) else if v == "" then None else Some(v)
  {
    OrdersTotal();
    AddKeeps(StrLess, m, k, v);
    var r := Add(StrLess, m, k, v);
    FindMember(StrLess, r, x);
    FindMember(StrLess, m, x);
    if x == k {
      assert (k, v) in r;
    } else {
      match Find(r, x) { case Some(y) => assert (x, y) in r; case None => }
      match Find(m, x) { case Some(y) => assert (x, y) in r; case None => }
    }
  }

  function Occurrences(m: Pairs, k: string): nat {
    if m == [] then 0 else (if m[0].0 == k then 1 else 0) + Occurrences(m[1..], k)
  }

  lemma {:induction false} FindOccurs(m: Pairs, k: string)
    ensures Find(m, k).Some? <==> Occurrences(m, k) > 0
  {
    if m == [] {
    } else {
      FindOccurs(m[1..], k);
    }
  }

  lemma {:induction false} FindAppend(m: Pairs, k: string, v: string, x: string)
    ensures Find(m + [(k, v)], x) == if Find(m, x).Some? then Find(m, x) else if x == k then Some(v) else None
  {
    if m == [] {
      assert m + [(k, v)] == [(k, v)] && [(k, v)][1..] == [];
    } else {
      assert (m + [(k, v)])[1..] == m[1..] + [(k, v)];
      FindAppend(m[1..], k, v, x);
    }
  }

  lemma {:induction false} WithoutOccurs(m: Pairs, k: string, x: string)
    ensures Occurrences(Without(m, k), x) == if x == k && Occurrences(m, k) > 0 then Occurrences(m, k) - 1 else Occurrences(m, x)
    ensures x != k ==> Find(Without(m, k), x) == Find(m, x)
  {
    if m == [] {
    } else {
      WithoutOccurs(m[1..], k, x);
      if m[0].0 != k { assert ([m[0]] + Without(m[1..], k))[1..] == Without(m[1..], k); }
    }
  }

  /** The value of the second pair with a key, if there is one. */
  function SecondValue(m: Pairs, k: string): Option<string> {
    if m == [] then None else if m[0].0 == k then Find(m[1..], k) else SecondValue(m[1..], k)
  }

  lemma {:induction false} FindWithout(m: Pairs, k: string)
    ensures Find(Without(m, k), k) == SecondValue(m, k)
    ensures SecondValue(m, k).Some? <==> Occurrences(m, k) > 1
  {
    if m == [] {
    } else {
      FindWithout(m[1..], k);
      FindOccurs(m[1..], k);
      if m[0].0 != k { assert ([m[0]] + Without(m[1..], k))[1..] == Without(m[1..], k); }
    }
  }

  /**
    In the ordered variant, `get` after a valid `set` returns the value exactly when the key
    was there at most once, or its second value happened to be the same; otherwise it returns
    that second, older value.  Other keys are untouched.
  */
  lemma {:induction false} OrderedSetGet(m: Pairs, k: string, v: string, x: string)
    requires Clean(k) && Clean(v)
    ensures OrderedGet(OrderedSet(m, k, v), k) == Some(v) <==> Occurrences(m, k) <= 1 || SecondValue(m, k) == Some(v)
    ensures Occurrences(m, k) > 1 ==> OrderedGet(OrderedSet(m, k, v), k) == SecondValue(m, k)
    ensures x != k ==> OrderedGet(OrderedSet(m, k, v), x) == OrderedGet(m, x)
  {
    FindAppend(Without(m, k), k, v, k);
    FindAppend(Without(m, k), k, v, x);
    FindWithout(m, k);
    WithoutOccurs(m, k, x);
  }

  lemma {:induction false} SecondOfTwo(k: string, v1: string, v2: string)
    ensures Occurrences([(k, v1), (k, v2)], k) == 2 && SecondValue([(k, v1), (k, v2)], k) == Some(v2)
  {
    var m, tail := [(k, v1), (k, v2)], [(k, v2)];
    assert m[1..] == tail;
    assert tail[1..] == [];
    assert Occurrences(tail, k) == 1;
    assert Find(tail, k) == Some(v2);
  }

  /** Parsing a repeated key is enough: the value set last is not the one read. */
  lemma RepeatedKeyHidesSet(k: string, v1: string, v2: string, v: string)
    requires Clean(k) && Clean(v1) && Clean(v2) && Clean(v)
    ensures
      var m := Parse(Print([(k, v1), (k, v2)]));
      OrderedGet(OrderedSet(m, k, v), k) == Some(v2)
  {
    var m := [(k, v1), (k, v2)];
    ParsePrint(m);
    SecondOfTwo(k, v1, v2);
    OrderedSetGet(m, k, v, k);
  }

  ghost predicate NoRepeats(m: Pairs) { forall k :: Occurrences(m, k) <= 1 }

  lemma {:induction false} OccursAppend(m: Pairs, k: string, v: string, x: string)
    ensures Occurrences(m + [(k, v)], x) == Occurrences(m, x) + if x == k then 1 else 0
  {
    if m == [] {
      assert m + [(k, v)] == [(k, v)] && [(k, v)][1..] == [];
    } else {
      assert (m + [(k, v)])[1..] == m[1..] + [(k, v)];
      OccursAppend(m[1..], k, v, x);
    }
  }

  /** Without a repeated key in the parsed texts, none ever appears, so `set` and `get` always agree. */
  lemma {:induction false} OrderedRunNoRepeats(ops: seq<Op>)
    requires forall i :: 0 <= i < |ops| && ops[i].Unflatten? ==> NoRepeats(Parse(ops[i].text))
    ensures NoRepeats(OrderedRun(ops))
  {
    if ops == [] {
    } else {
      var m := OrderedRun(ops[..|ops| - 1]);
      OrderedRunNoRepeats(ops[..|ops| - 1]);
      match ops[|ops| - 1]
      case Set(k, v) =>
        forall x ensures Occurrences(OrderedSet(m, k, v), x) <= 1 {
          WithoutOccurs(m, k, x);
          OccursAppend(Without(m, k), k, v, x);
        }
      case Remove(k) => forall x ensures Occurrences(Without(m, k), x) <= 1 { WithoutOccurs(m, k, x); }
      case Unflatten(s) =>
    }
  }

  // -------------------------------------------------------------------- set order

  lemma {:induction false} IndexAppend(m: Pairs, k: string, v: string, x: string)
    ensures IndexOfKey(m + [(k, v)], x)
         == if IndexOfKey(m, x).Some? then IndexOfKey(m, x) else if x == k then Some(|m|) else None
  {
    if m == [] {
      assert m + [(k, v)] == [(k, v)] && [(k, v)][1..] == [];
    } else {
      assert (m + [(k, v)])[1..] == m[1..] + [(k, v)];
      IndexAppend(m[1..], k, v, x);
    }
  }

  /** Removing a key moves the keys after it up by one and leaves the ones before it in place. */
  lemma {:induction false} IndexWithout(m: Pairs, k: string, x: string)
    requires x != k
    ensures
      match (IndexOfKey(m, x), IndexOfKey(m, k))
      case (None, _) => IndexOfKey(Without(m, k), x).None?
      case (Some(i), None) => IndexOfKey(Without(m, k), x) == Some(i)
      case (Some(i), Some(j)) => i != j && IndexOfKey(Without(m, k), x) == Some(if i < j then i else i - 1)
  {
    if m == [] {
    } else {
      IndexWithout(m[1..], k, x);
      if m[0].0 != k { assert ([m[0]] + Without(m[1..], k))[1..] == Without(m[1..], k); }
    }
  }

  lemma {:induction false} IndexOccurs(m: Pairs, k: string)
    ensures IndexOfKey(m, k).Some? <==> Occurrences(m, k) > 0
  {
    if m == [] {
    } else {
      IndexOccurs(m[1..], k);
    }
  }

  /** A key that was there at most once comes after every other when set; the others are never reordered. */
  lemma {:induction false} SetComesLast(m: Pairs, k: string, v: string, x: string, y: string)
    requires Clean(k) && Clean(v) && x != k && y != k
    ensures Occurrences(m, k) <= 1 && IndexOfKey(m, x).Some? ==>
      CompareSetOrder(OrderedSet(m, k, v), x, k) == Some(-1) && CompareSetOrder(OrderedSet(m, k, v), k, x) == Some(1)
    ensures CompareSetOrder(OrderedSet(m, k, v), x, y) == CompareSetOrder(m, x, y)
  {
    hide IndexOfKey;
    IndexAfterSet(m, k, v, x);
    IndexAfterSet(m, k, v, y);
    IndexWithout(m, k, x);
    IndexWithout(m, k, y);
    IndexOfSet(m, k, v);
  }

  lemma {:induction false} IndexAfterSet(m: Pairs, k: string, v: string, x: string)
    requires Clean(k) && Clean(v) && x != k
    ensures IndexOfKey(OrderedSet(m, k, v), x) == IndexOfKey(Without(m, k), x)
  {
    IndexAppend(Without(m, k), k, v, x);
  }

  lemma {:induction false} IndexOfSet(m: Pairs, k: string, v: string)
    requires Clean(k) && Clean(v)
    ensures Occurrences(m, k) <= 1 ==> IndexOfKey(OrderedSet(m, k, v), k) == Some(|Without(m, k)|)
  {
    IndexAppend(Without(m, k), k, v, k);
    WithoutOccurs(m, k, k);
    IndexOccurs(Without(m, k), k);
  }

  // ------------------------------------------------------------- numbers and sizes

  lemma {:induction false} PrintNatClean(n: nat)
    ensures Clean(PrintNat(n))
  {
    PrintNatFacts(n);
  }

  lemma PrintIntClean(n: int)
    ensures Clean(PrintInt(n)) && PrintInt(n) != ""
  {
    PrintNatClean(if n < 0 then -n else n);
  }

  /** `getInt`: -1 when the key is missing. */
  function IntOf(v: Option<string>): int { if v.None? then -1 else ToInt(Strtol(v.value, 0).0) }

  /** `getPreviewSize` and its like: (-1, -1) when the key is missing or the text is no pair. */
  function PairOf(v: Option<string>, delim: char): (int, int)
    requires delim != '\0'
  {
    if v.None? then (-1, -1)
    else match ParsePair(v.value, delim)
      case None => (-1, -1)
      case Some(p) => (p.first, p.second)
  }

  /** `set` of an int, then `getInt`: every int comes back, in both variants, under a valid key. */
  lemma {:induction false} IntRoundTrip(m: Pairs, k: string, n: int)
    requires Clean(k) && IsInt(n)
    ensures Sorted(StrLess, m) ==> IntOf(SortedGet(SortedSet(m, k, PrintInt(n)), k)) == n
    ensures Occurrences(m, k) <= 1 ==> IntOf(OrderedGet(OrderedSet(m, k, PrintInt(n)), k)) == n
  {
    hide Strtol, PrintInt;
    PrintIntClean(n);
    StrtolPrintedAnyBase(n);
    if Sorted(StrLess, m) { SortedSetGet(m, k, PrintInt(n), k); }
    OrderedSetGet(m, k, PrintInt(n), k);
  }

  lemma PrintPairClean(a: int, b: int, delim: char)
    requires delim != '=' && delim != ';'
    ensures Clean(PrintPair(a, b, delim)) && PrintPair(a, b, delim) != ""
  {
    PrintIntClean(a);
    PrintIntClean(b);
  }

  /** Setting a size (or a range, with ',') and getting it returns the same pair of ints, in both variants. */
  lemma {:induction false} PairRoundTrip(m: Pairs, k: string, a: int, b: int, delim: char)
    requires Clean(k) && IsInt(a) && IsInt(b) && (delim == 'x' || delim == ',')
    ensures Sorted(StrLess, m) ==> PairOf(SortedGet(SortedSet(m, k, PrintPair(a, b, delim)), k), delim) == (a, b)
    ensures Occurrences(m, k) <= 1 ==> PairOf(OrderedGet(OrderedSet(m, k, PrintPair(a, b, delim)), k), delim) == (a, b)
  {
    hide ParsePair, PrintPair;
    PrintPairClean(a, b, delim);
    ParsePrintedPair(a, b, delim, []);
    assert PrintPair(a, b, delim) + [] == PrintPair(a, b, delim);
    if Sorted(StrLess, m) { SortedSetGet(m, k, PrintPair(a, b, delim), k); }
    OrderedSetGet(m, k, PrintPair(a, b, delim), k);
  }

  // ------------------------------------------------------------------- the classes

  /** The loop of `flatten`, common to both variants. */
  method FlattenPairs(m: Pairs) returns (s: string)
    ensures s == Print(m)
  {
    s := "";
    for i := 0 to |m|
      invariant s + Print(m[i..]) == Print(m)
    {
      var (k, v) := m[i];
      ghost var before := s;
      s := s + k;
      s := s + "=";
      s := s + v;
      assert m[i..][1..] == m[i + 1..];
      if i != |m| - 1 {
        s := s + ";";
        assert s + Print(m[i + 1..]) == before + (k + "=" + (v + ";" + Print(m[i + 1..])));
      } else {
        assert s + "" == before + (k + "=" + v);
      }
    }
  }

  class CameraParameters {
    var contents: Pairs

    constructor ()
      ensures contents == []
    {
      contents := [];
    }

    method Flatten() returns (s: string)
      ensures s == Print(contents)
    {
      s := FlattenPairs(contents);
    }

    method Unflatten(params: string)
      modifies this
      ensures contents == SortedUnflatten(params)
    {
      hide NextItem;
      contents := [];
      ghost var found: Pairs := [];
      var a := params;
      while true
        invariant contents == AddAll(StrLess, found) && found + Parse(a) == Parse(params)
        decreases |a|
      {
        var it := FindItem(a);
        if it.None? {
          break;
        }
        var Item(k, v, rest) := it.value;
        ParseTakes(found, a, it.value);
        AddAllNext(found, k, v);
        found := found + [(k, v)];
        contents := Add(StrLess, contents, k, v);
        if rest.None? {
          break;
        }
        a := rest.value;
      }
      assert found == Parse(params);
    }

    method SetValue(key: string, value: string)
      modifies this
      ensures contents == SortedSet(old(contents), key, value)
    {
      if StrChr(key, '=').Some? || StrChr(key, ';').Some? || StrChr(value, '=').Some? || StrChr(value, ';').Some? {
        NotClean(key, value);
        return;
      }
      NotClean(key, value);
      contents := Add(StrLess, contents, key, value);
    }

    method SetInt(key: string, value: int)
      requires Sorted(StrLess, contents)
      modifies this
      ensures contents == SortedSet(old(contents), key, PrintInt(value))
      ensures Clean(key) && IsInt(value) ==> IntOf(SortedGet(contents, key)) == value
    {
      SetValue(key, PrintInt(value));
      if Clean(key) && IsInt(value) { IntRoundTrip(old(contents), key, value); }
    }
  }

  class CameraParameters2 {
    var list: Pairs

    constructor ()
      ensures list == []
    {
      list := [];
    }

    method Flatten() returns (s: string)
      ensures s == Print(list)
    {
      s := FlattenPairs(list);
    }

    method Unflatten(params: string)
      modifies this
      ensures list == Parse(params)
    {
      hide NextItem;
      list := [];
      var a := params;
      while true
        invariant list + Parse(a) == Parse(params)
        decreases |a|
      {
        var it := FindItem(a);
        if it.None? {
          break;
        }
        ParseTakes(list, a, it.value);
        list := list + [(it.value.key, it.value.value)];
        if it.value.rest.None? {
          break;
        }
        a := it.value.rest.value;
      }
    }

    method RemoveItem(key: string)
      modifies this
      ensures list == Without(old(list), key)
    {
      var i := 0;
      assert list[..0] + Without(list[0..], key) == Without(list, key) by { assert list[0..] == list; }
      while i < |list| && list[i].0 != key
        invariant 0 <= i <= |list| && list == old(list)
        invariant list[..i] + Without(list[i..], key) == Without(list, key)
      {
        assert list[i..][1..] == list[i + 1..];
        assert list[..i] + ([list[i]] + Without(list[i + 1..], key)) == list[..i + 1] + Without(list[i + 1..], key);
        i := i + 1;
      }
      if i < |list| {
        assert list[i..][1..] == list[i + 1..];
        list := list[..i] + list[i + 1..];
      } else {
        assert list[..i] + [] == list;
      }
    }

    method SetValue(key: string, value: string)
      modifies this
      ensures list == OrderedSet(old(list), key, value)
    {
      NotClean(key, value);
      if StrChr(key, '=').Some? || StrChr(key, ';').Some? || StrChr(value, '=').Some? || StrChr(value, ';').Some? {
        return;
      }
      RemoveItem(key);
      list := list + [(key, value)];
    }
  }

  /** Taking one pair off the text and adding it to the pairs found keeps what they add up to. */
  lemma {:induction false} ParseTakes(found: Pairs, a: string, it: Item)
    requires NextItem(a) == Some(it)
    ensures found + Parse(a) == found + [(it.key, it.value)] + if it.rest.None? then [] else Parse(it.rest.value)
  {
    hide NextItem;
  }

  lemma AddAllNext(found: Pairs, k: string, v: string)
    ensures AddAll(StrLess, found + [(k, v)]) == Add(StrLess, AddAll(StrLess, found), k, v)
  {
    assert (found + [(k, v)])[..|found|] == found;
  }

  lemma {:induction false} NotClean(key: string, value: string)
    ensures Clean(key) && Clean(value)
       <==> StrChr(key, '=').None? && StrChr(key, ';').None? && StrChr(value, '=').None? && StrChr(value, ';').None?
  {
    StrChrFirst(key, '=');
    StrChrFirst(key, ';');
    StrChrFirst(value, '=');
    StrChrFirst(value, ';');
  }
}
