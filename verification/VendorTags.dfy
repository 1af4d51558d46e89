/**
  `VendorTagDescriptor` of camera/VendorTagDescriptor.cpp: forward maps from a tag to
  its name, type and section index, a sorted section table addressed by that index, and
  a reverse index from section and name to tag; the parcel form of a descriptor, and of
  a cache of descriptors.

  A parcel is a sequence of typed items.  Reading past its end, or an item of another
  type, fails with NOT_ENOUGH_DATA.
*/
module VendorTags {
  import opened Basics
  import opened SortedVectors

  const BAD_VALUE := -22
  const NOT_ENOUGH_DATA := -61
  const VENDOR_TAG_BOUNDARY := 0x8000_0000
  const UINT32_LIMIT := 0x1_0000_0000
  const NUM_TYPES := 6

  datatype Result<+T> = Ok(value: T) | Err(code: int)

  // --------------------------------------------------------------- descriptors

  /** What the vendor operations say about one tag; None stands for a NULL string. */
  datatype TagInfo = TagInfo(name: Option<string>, section: Option<string>, kind: int)

  /** `vendor_tag_ops_t`: a count, the tags it announces, and a description of each. */
  datatype Ops = Ops(count: int, tags: seq<int>, info: int -> TagInfo)

  datatype Descriptor = Descriptor(
    names: Keyed<int, string>,
    sectionOf: Keyed<int, int>,         // index into `sections`
    types: Keyed<int, int>,
    sections: seq<string>,
    reverse: Keyed<string, Keyed<string, int>>,
    tagCount: int)

  const EmptyDescriptor := Descriptor([], [], [], [], [], 0)

  /** A sorted vector of strings is a keyed vector without values. */
  function AddSection(ss: seq<string>, s: string): seq<string> { Keys(Add(StrLess, Units(ss), s, ())) }

  function Units(ss: seq<string>): (r: Keyed<string, ()>)
    ensures |r| == |ss| && forall i :: 0 <= i < |r| ==> r[i] == (ss[i], ())
  {
    seq(|ss|, i requires 0 <= i < |ss| => (ss[i], ()))
  }

  function Keys<K, V>(kv: Keyed<K, V>): (r: seq<K>)
    ensures |r| == |kv| && forall i :: 0 <= i < |r| ==> r[i] == kv[i].0
  {
    seq(|kv|, i requires 0 <= i < |kv| => kv[i].0)
  }

  function AddSections(ss: seq<string>): seq<string> {
    if ss == [] then [] else AddSection(AddSections(ss[..|ss| - 1]), ss[|ss| - 1])
  }

  function IndexOf<T(==)>(s: seq<T>, x: T): Option<nat> {
    if s == [] then None
    else if s[0] == x then Some(0)
    else match IndexOf(s[1..], x)
      case None => None
      case Some(i) => Some(i + 1)
  }

  /** A tag with its place in the reverse index. */
  datatype Triple = Triple(section: string, name: string, tag: int)

  function AddReverse(rev: Keyed<string, Keyed<string, int>>, t: Triple): Keyed<string, Keyed<string, int>> {
    var inner := Inner(rev, t.section);
    Add(StrLess, rev, t.section, Add(StrLess, inner, t.name, t.tag))
  }

  function Reverse(ts: seq<Triple>): Keyed<string, Keyed<string, int>> {
    if ts == [] then [] else AddReverse(Reverse(ts[..|ts| - 1]), ts[|ts| - 1])
  }

  // -------------------------------------------------- createDescriptorFromOps

  predicate Acceptable(tag: int, info: TagInfo) {
    VENDOR_TAG_BOUNDARY <= tag < UINT32_LIMIT && info.name.Some? && info.section.Some? && 0 <= info.kind < NUM_TYPES
  }

  predicate TagOk(info: int -> TagInfo, tag: int) { Acceptable(tag, info(tag)) }

  /** The operations answer as `createDescriptorFromOps` demands. */
  predicate OpsOk(o: Ops) {
    0 <= o.count == |o.tags| < 0x8000_0000 && forall t :: t in o.tags ==> TagOk(o.info, t)
  }

  function Text(s: Option<string>): string { match s case None => "" case Some(x) => x }

  function NameOf(o: Ops, t: int): string { Text(o.info(t).name) }

  function SectionOf(o: Ops, t: int): string { Text(o.info(t).section) }

  function SectionList(o: Ops): (r: seq<string>)
    ensures |r| == |o.tags| && forall i :: 0 <= i < |r| ==> r[i] == SectionOf(o, o.tags[i])
  {
    seq(|o.tags|, i requires 0 <= i < |o.tags| => SectionOf(o, o.tags[i]))
  }

  function Index(sections: seq<string>, s: string): int {
    match IndexOf(sections, s) case None => 0 case Some(i) => i
  }

  function Tabulate<V>(tags: seq<int>, f: int -> V): (r: seq<(int, V)>)
    ensures |r| == |tags| && forall i :: 0 <= i < |r| ==> r[i] == (tags[i], f(tags[i]))
  {
    seq(|tags|, i requires 0 <= i < |tags| => (tags[i], f(tags[i])))
  }

  function Triples(o: Ops): (r: seq<Triple>)
    ensures |r| == |o.tags|
    ensures forall i :: 0 <= i < |r| ==> r[i] == Triple(SectionOf(o, o.tags[i]), NameOf(o, o.tags[i]), o.tags[i])
  {
    seq(|o.tags|, i requires 0 <= i < |o.tags| => Triple(SectionOf(o, o.tags[i]), NameOf(o, o.tags[i]), o.tags[i]))
  }

  function Table<V>(tags: seq<int>, f: int -> V): Keyed<int, V> { AddAll(IntLess, Tabulate(tags, f)) }

  function Namer(o: Ops): int -> string { (t: int) => NameOf(o, t) }

  function Indexer(o: Ops, sections: seq<string>): int -> int { (t: int) => Index(sections, SectionOf(o, t)) }

  function Typer(o: Ops): int -> int { (t: int) => o.info(t).kind }

  function Build(o: Ops): Descriptor {
    var sections := AddSections(SectionList(o));
    Descriptor(
      Table(o.tags, Namer(o)),
      Table(o.tags, Indexer(o, sections)),
      Table(o.tags, Typer(o)),
      sections,
      Reverse(Triples(o)),
      o.count)
  }

  function Create(o: Ops): Result<Descriptor> {
    if !OpsOk(o) then Err(BAD_VALUE) else Ok(Build(o))
  }

  // -------------------------------------------------------------------- getters

  function GetTagName(d: Descriptor, tag: int): Option<string> { Find(d.names, tag) }

  function GetSectionName(d: Descriptor, tag: int): Option<string> {
    match Find(d.sectionOf, tag)
    case None => None
    case Some(i) => if 0 <= i < |d.sections| then Some(d.sections[i]) else None
  }

  function GetTagType(d: Descriptor, tag: int): Option<int> {
    if Find(d.names, tag).None? then None else Find(d.types, tag)
  }

  function LookupTag(d: Descriptor, name: string, section: string): Result<int> {
    match Find(d.reverse, section)
    case None => Err(BAD_VALUE)
    case Some(kv) =>
      match Find(kv, name)
      case None => Err(BAD_VALUE)
      case Some(t) => Ok(t)
  }

  // ------------------------------------------------------------ section table

  ghost predicate SortedStrings(ss: seq<string>) { forall i, j :: 0 <= i < j < |ss| ==> StrLess(ss[i], ss[j]) }

  lemma AddSectionFacts(ss: seq<string>, s: string)
    requires SortedStrings(ss)
    ensures SortedStrings(AddSection(ss, s))
    ensures forall x :: x in AddSection(ss, s) <==> x == s || x in ss
    ensures |AddSection(ss, s)| <= |ss| + 1
  {
    OrdersTotal();
    var kv, r := Units(ss), Add(StrLess, Units(ss), s, ());
    AddKeeps(StrLess, kv, s, ());
    AddLength(kv, s);
    forall x ensures x in Keys(r) <==> x == s || x in ss {
      assert (x, ()) in r <==> x == s || (x, ()) in kv;
      KeyMember(r, x);
      UnitsMember(ss, (x, ()));
    }
  }

  lemma KeyMember(kv: Keyed<string, ()>, x: string)
    ensures x in Keys(kv) <==> (x, ()) in kv
  {
    if x in Keys(kv) { var i :| 0 <= i < |kv| && kv[i].0 == x; UnitIs(kv[i].1); assert kv[i] == (x, ()); }
    if (x, ()) in kv { var i :| 0 <= i < |kv| && kv[i] == (x, ()); assert Keys(kv)[i] == x; }
  }

  lemma {:induction false} AddLength(kv: Keyed<string, ()>, s: string)
    ensures |kv| <= |Add(StrLess, kv, s, ())| <= |kv| + 1
    decreases |kv|
  {
    if kv == [] {
    } else {
      AddLength(kv[1..], s);
    }
  }

  lemma {:induction false} SectionsFacts(ss: seq<string>)
    ensures SortedStrings(AddSections(ss)) && |AddSections(ss)| <= |ss|
    ensures forall x :: x in AddSections(ss) <==> x in ss
  {
    if ss == [] {
    } else {
      SectionsFacts(ss[..|ss| - 1]);
      AddSectionFacts(AddSections(ss[..|ss| - 1]), ss[|ss| - 1]);
      assert ss == ss[..|ss| - 1] + [ss[|ss| - 1]];
    }
  }

  lemma {:induction false} AddSectionsSorted(ss: seq<string>)
    requires SortedStrings(ss)
    ensures AddSections(ss) == ss
  {
    SectionsFacts(ss);
    OrdersTotal();
    var a, b := Units(AddSections(ss)), Units(ss);
    forall p ensures p in a <==> p in b {
      UnitsMember(AddSections(ss), p);
      UnitsMember(ss, p);
    }
    Canonical(StrLess, a, b);
    assert forall i :: 0 <= i < |ss| ==> AddSections(ss)[i] == a[i].0;
  }

  lemma UnitIs(u: ())
    ensures u == ()
  {
    match u case () =>
  }

  lemma UnitsMember(ss: seq<string>, p: (string, ()))
    ensures p in Units(ss) <==> p.0 in ss
  {
    if p in Units(ss) { var i :| 0 <= i < |ss| && Units(ss)[i] == p; assert ss[i] == p.0; }
    if p.0 in ss { var i :| 0 <= i < |ss| && ss[i] == p.0; UnitIs(p.1); assert Units(ss)[i] == p; }
  }

  lemma {:induction false} IndexOfFacts<T>(s: seq<T>, x: T)
    ensures IndexOf(s, x).Some? <==> x in s
    ensures IndexOf(s, x).Some? ==> IndexOf(s, x).value < |s| && s[IndexOf(s, x).value] == x
  {
    if s == [] {
    } else {
      IndexOfFacts(s[1..], x);
      assert s == [s[0]] + s[1..];
    }
  }

  // -------------------------------------------------------------- reverse index

  /** The tag a triple list assigns to a section and a name: the last one wins. */
  function LastTag(ts: seq<Triple>, section: string, name: string): Option<int> {
    if ts == [] then None
    else if ts[|ts| - 1].section == section && ts[|ts| - 1].name == name then Some(ts[|ts| - 1].tag)
    else LastTag(ts[..|ts| - 1], section, name)
  }

  ghost predicate ReverseOk(rev: Keyed<string, Keyed<string, int>>) {
    && Sorted(StrLess, rev)
    && forall i :: 0 <= i < |rev| ==> Sorted(StrLess, rev[i].1) && rev[i].1 != []
  }

  function Look(rev: Keyed<string, Keyed<string, int>>, section: string, name: string): Option<int> {
    match Find(rev, section)
    case None => None
    case Some(kv) => Find(kv, name)
  }

  lemma AddReverseFacts(rev: Keyed<string, Keyed<string, int>>, t: Triple)
    requires ReverseOk(rev)
    ensures ReverseOk(AddReverse(rev, t))
    ensures forall s, n :: Look(AddReverse(rev, t), s, n)
              == if s == t.section && n == t.name then Some(t.tag) else Look(rev, s, n)
  {
    hide AddReverse, Look;
    var inner := Inner(rev, t.section);
    InnerSorted(rev, t.section);
    AddReverseOk(rev, inner, t);
    forall s, n ensures Look(AddReverse(rev, t), s, n) == if s == t.section && n == t.name then Some(t.tag) else Look(rev, s, n) {
      LookAfterAdd(rev, inner, t, s, n);
    }
  }

  function Inner(rev: Keyed<string, Keyed<string, int>>, section: string): Keyed<string, int> {
    match Find(rev, section) case None => [] case Some(kv) => kv
  }

  lemma InnerSorted(rev: Keyed<string, Keyed<string, int>>, section: string)
    requires ReverseOk(rev)
    ensures Sorted(StrLess, Inner(rev, section))
  {
    FindFirst(rev, section);
  }

  lemma AddReverseOk(rev: Keyed<string, Keyed<string, int>>, inner: Keyed<string, int>, t: Triple)
    requires ReverseOk(rev) && Sorted(StrLess, inner) && inner == Inner(rev, t.section)
    ensures ReverseOk(AddReverse(rev, t))
  {
    OrdersTotal();
    var inner' := Add(StrLess, inner, t.name, t.tag);
    AddKeeps(StrLess, inner, t.name, t.tag);
    AddKeeps(StrLess, rev, t.section, inner');
    var r := AddReverse(rev, t);
    forall i | 0 <= i < |r| ensures Sorted(StrLess, r[i].1) && r[i].1 != [] {
      var (x, y) := r[i];
      assert (x, y) in r;
    }
  }

  lemma LookAfterAdd(rev: Keyed<string, Keyed<string, int>>, inner: Keyed<string, int>, t: Triple, s: string, n: string)
    requires Sorted(StrLess, rev) && Sorted(StrLess, inner)
    requires inner == Inner(rev, t.section)
    ensures Look(AddReverse(rev, t), s, n) == if s == t.section && n == t.name then Some(t.tag) else Look(rev, s, n)
  {
    OrdersTotal();
    FindAfterAdd(StrLess, rev, t.section, Add(StrLess, inner, t.name, t.tag), s);
    FindAfterAdd(StrLess, inner, t.name, t.tag, n);
  }

  lemma {:induction false} FindAfterAdd<K(!new), V(!new)>(less: Less<K>, kv: Keyed<K, V>, k: K, v: V, x: K)
    requires StrictTotal(less) && Sorted(less, kv)
    ensures Find(Add(less, kv, k, v), x) == if x == k then Some(v) else Find(kv, x)
  {
    AddKeeps(less, kv, k, v);
    FindMember(less, Add(less, kv, k, v), x);
    FindMember(less, kv, x);
    if x != k {
      var f, g := Find(Add(less, kv, k, v), x), Find(kv, x);
      if f.Some? { assert (x, f.value) in Add(less, kv, k, v); }
      if g.Some? { assert (x, g.value) in Add(less, kv, k, v); }
    } else {
      assert (k, v) in Add(less, kv, k, v);
    }
  }

  lemma {:induction false} ReverseFacts(ts: seq<Triple>)
    ensures ReverseOk(Reverse(ts))
    ensures forall s, n :: Look(Reverse(ts), s, n) == LastTag(ts, s, n)
  {
    if ts == [] {
    } else {
      ReverseFacts(ts[..|ts| - 1]);
      AddReverseFacts(Reverse(ts[..|ts| - 1]), ts[|ts| - 1]);
    }
  }

  lemma {:induction false} LastTagFacts(ts: seq<Triple>, s: string, n: string)
    ensures LastTag(ts, s, n).Some? ==> Triple(s, n, LastTag(ts, s, n).value) in ts
    ensures LastTag(ts, s, n).None? ==> forall t :: t in ts ==> t.section != s || t.name != n
  {
    if ts == [] {
    } else {
      LastTagFacts(ts[..|ts| - 1], s, n);
      assert ts == ts[..|ts| - 1] + [ts[|ts| - 1]];
    }
  }

  /** Two reverse indices that answer every look-up alike are the same vectors. */
  lemma ReverseDetermined(a: Keyed<string, Keyed<string, int>>, b: Keyed<string, Keyed<string, int>>)
    requires ReverseOk(a) && ReverseOk(b)
    requires forall s, n :: Look(a, s, n) == Look(b, s, n)
    ensures a == b
  {
    OrdersTotal();
    forall p ensures p in a <==> p in b {
      if p in a { SameEntry(a, b, p); }
      if p in b { SameEntry(b, a, p); }
    }
    Canonical(StrLess, a, b);
  }

  lemma SameEntry(a: Keyed<string, Keyed<string, int>>, b: Keyed<string, Keyed<string, int>>,
                  p: (string, Keyed<string, int>))
    requires ReverseOk(a) && ReverseOk(b) && p in a
    requires forall s, n :: Look(a, s, n) == Look(b, s, n)
    ensures p in b
  {
    OrdersTotal();
    var (s, kv) := p;
    FindMember(StrLess, a, s);
    FindMember(StrLess, b, s);
    assert Find(a, s) == Some(kv);
    assert Look(b, s, kv[0].0) == Look(a, s, kv[0].0) == Some(kv[0].1);
    var kv' := Find(b, s).value;
    assert (s, kv') in b;
    forall q ensures q in kv <==> q in kv' {
      FindMember(StrLess, kv, q.0);
      FindMember(StrLess, kv', q.0);
      assert Look(a, s, q.0) == Look(b, s, q.0);
      assert Find(kv, q.0) == Find(kv', q.0);
      assert (q.0, q.1) in kv <==> (q.0, q.1) in kv';
    }
    Canonical(StrLess, kv, kv');
  }

  // ---------------------------------------------------- what a built descriptor says

  /** A table built from the tags answers with the function it was built from. */
  lemma {:induction false} FindTabulated<V(!new)>(tags: seq<int>, f: int -> V, t: int)
    ensures Find(Table(tags, f), t) == if t in tags then Some(f(t)) else None
  {
    OrdersTotal();
    var pairs := Tabulate(tags, f);
    AddAllAssigns(IntLess, pairs);
    FindMember(IntLess, AddAll(IntLess, pairs), t);
    if t in tags {
      var i :| 0 <= i < |tags| && tags[i] == t;
      assert pairs[i].0 == t;
      assert (t, Assign(pairs)[t]) in pairs;
    }
  }

  lemma OwnSection(o: Ops, t: int)
    requires t in o.tags
    ensures
      var sections := AddSections(SectionList(o));
      Index(sections, SectionOf(o, t)) < |sections| && sections[Index(sections, SectionOf(o, t))] == SectionOf(o, t)
  {
    var i :| 0 <= i < |o.tags| && o.tags[i] == t;
    SectionsFacts(SectionList(o));
    assert SectionList(o)[i] == SectionOf(o, t);
    IndexOfFacts(AddSections(SectionList(o)), SectionOf(o, t));
  }

  lemma BuiltName(o: Ops, t: int)
    ensures GetTagName(Build(o), t) == if t in o.tags then Some(NameOf(o, t)) else None
  {
    FindTabulated(o.tags, Namer(o), t);
  }

  lemma BuiltType(o: Ops, t: int)
    ensures GetTagType(Build(o), t) == if t in o.tags then Some(o.info(t).kind) else None
  {
    BuiltName(o, t);
    FindTabulated(o.tags, Typer(o), t);
  }

  /** Although inserting a section shifts the indices of others, a tag keeps the index of its own section. */
  lemma BuiltSection(o: Ops, t: int)
    ensures GetSectionName(Build(o), t) == if t in o.tags then Some(SectionOf(o, t)) else None
  {
    FindTabulated(o.tags, Indexer(o, AddSections(SectionList(o))), t);
    if t in o.tags { OwnSection(o, t); }
  }

  /** The getters say of every tag exactly what the operations said, and nothing of any other tag. */
  lemma BuiltAnswers(o: Ops, t: int)
    requires OpsOk(o)
    ensures
      (GetTagName(Build(o), t), GetSectionName(Build(o), t), GetTagType(Build(o), t))
      == if t in o.tags then (o.info(t).name, o.info(t).section, Some(o.info(t).kind)) else (None, None, None)
  {
    BuiltName(o, t);
    BuiltType(o, t);
    BuiltSection(o, t);
  }

  ghost predicate UniquePairs(o: Ops) {
    forall a, b :: a in o.tags && b in o.tags && NameOf(o, a) == NameOf(o, b) && SectionOf(o, a) == SectionOf(o, b) ==> a == b
  }

  lemma TripleMember(o: Ops, t: Triple)
    ensures t in Triples(o) <==> t.tag in o.tags && t == Triple(SectionOf(o, t.tag), NameOf(o, t.tag), t.tag)
  {
    if t in Triples(o) { var i :| 0 <= i < |o.tags| && Triples(o)[i] == t; assert o.tags[i] == t.tag; }
    if t.tag in o.tags { var i :| 0 <= i < |o.tags| && o.tags[i] == t.tag; assert Triples(o)[i].tag == t.tag; }
  }

  /** A look-up never invents: what it finds has that name and that section. */
  lemma LookupSound(o: Ops, name: string, section: string)
    requires OpsOk(o)
    ensures
      match LookupTag(Build(o), name, section)
      case Ok(t) => t in o.tags && NameOf(o, t) == name && SectionOf(o, t) == section
      case Err(_) => forall t :: t in o.tags ==> NameOf(o, t) != name || SectionOf(o, t) != section
  {
    var ts := Triples(o);
    ReverseFacts(ts);
    LastTagFacts(ts, section, name);
    assert Look(Build(o).reverse, section, name) == LastTag(ts, section, name);
    match LastTag(ts, section, name)
    case Some(t) => TripleMember(o, Triple(section, name, t));
    case None =>
      forall t | t in o.tags ensures NameOf(o, t) != name || SectionOf(o, t) != section {
        TripleMember(o, Triple(SectionOf(o, t), NameOf(o, t), t));
      }
  }

  /** `lookupTag` undoes `getTagName` and `getSectionName` on every tag exactly when no two tags share both. */
  lemma LookupInverse(o: Ops)
    requires OpsOk(o)
    ensures UniquePairs(o) <==> forall t :: t in o.tags ==> LookupTag(Build(o), NameOf(o, t), SectionOf(o, t)) == Ok(t)
  {
    forall t | t in o.tags
      ensures UniquePairs(o) ==> LookupTag(Build(o), NameOf(o, t), SectionOf(o, t)) == Ok(t)
    {
      LookupSound(o, NameOf(o, t), SectionOf(o, t));
    }
  }

  // -------------------------------------------------------------------- parcels

  /** A 32-bit item keeps its bits, read back as signed or unsigned. */
  datatype Item = I32(bits: int) | U64(value: int) | Str(text: string)
  type Parcel = seq<Item>

  datatype Entry = Entry(tag: int, kind: int, name: string, section: int)

  /** The bits of a 32-bit value, signed or unsigned. */
  function Bits(v: int): int { if v < 0 then v + UINT32_LIMIT else v }

  /** `uint32_t` increment. */
  function Increment(v: int): int { if v == UINT32_LIMIT - 1 then 0 else v + 1 }

  function Signed(bits: int): int { if bits < 0x8000_0000 then bits else bits - UINT32_LIMIT }

  function ReadI32(p: Parcel): Result<(int, Parcel)> {
    if p == [] || !p[0].I32? then Err(NOT_ENOUGH_DATA) else Ok((p[0].bits, p[1..]))
  }

  function ValueFor<V>(kv: Keyed<int, V>, k: int, default: V): V {
    match Find(kv, k) case None => default case Some(v) => v
  }

  function WriteEntry(e: Entry): Parcel { [I32(Bits(e.tag)), I32(Bits(e.kind)), Str(e.name), I32(Bits(e.section))] }

  function WriteEntries(es: seq<Entry>): Parcel {
    if es == [] then [] else WriteEntry(es[0]) + WriteEntries(es[1..])
  }

  function EntryAt(d: Descriptor, i: nat): Entry
    requires i < |d.names|
  {
    var tag := d.names[i].0;
    Entry(tag, ValueFor(d.types, tag, 0), d.names[i].1, ValueFor(d.sectionOf, tag, 0))
  }

  function Entries(d: Descriptor): (r: seq<Entry>)
    ensures |r| == |d.names| && forall i :: 0 <= i < |r| ==> r[i] == EntryAt(d, i)
  {
    seq(|d.names|, i requires 0 <= i < |d.names| => EntryAt(d, i))
  }

  function WriteStrings(ss: seq<string>): Parcel {
    if ss == [] then [] else [Str(ss[0])] + WriteStrings(ss[1..])
  }

  function WriteSections(ss: seq<string>): Parcel {
    if ss == [] then [] else [I32(Bits(|ss|))] + WriteStrings(ss)
  }

  /** `writeToParcel`. */
  function Write(d: Descriptor): Parcel {
    [I32(Bits(d.tagCount))] + WriteEntries(Entries(d)) + WriteSections(d.sections)
  }

  predicate IntAt(p: Parcel, i: nat) { i < |p| && p[i].I32? }

  /** One turn of the reading loop; a string that is missing reads as empty. */
  function ReadEntry(p: Parcel): Result<(Entry, Parcel)> {
    if !IntAt(p, 0) then Err(NOT_ENOUGH_DATA)
    else if p[0].bits < VENDOR_TAG_BOUNDARY then Err(BAD_VALUE)
    else if !IntAt(p, 1) then Err(NOT_ENOUGH_DATA)
    else if Signed(p[1].bits) < 0 || Signed(p[1].bits) >= NUM_TYPES then Err(BAD_VALUE)
    else if |p| <= 2 || !p[2].Str? || p[2].text == "" then Err(NOT_ENOUGH_DATA)
    else if !IntAt(p, 3) then Err(NOT_ENOUGH_DATA)
    else Ok((Entry(p[0].bits, Signed(p[1].bits), p[2].text, p[3].bits), p[4..]))
  }

  /** Items already read, then the outcome for the rest. */
  function Continue<T>(es: seq<T>, r: Result<(seq<T>, Parcel)>): Result<(seq<T>, Parcel)> {
    match r case Err(e) => Err(e) case Ok((more, p)) => Ok((es + more, p))
  }

  function ReadEntries(p: Parcel, n: nat): Result<(seq<Entry>, Parcel)> {
    if n == 0 then Ok(([], p))
    else match ReadEntry(p)
      case Err(e) => Err(e)
      case Ok((e, p1)) => Continue([e], ReadEntries(p1, n - 1))
  }

  function ReadStrings(p: Parcel, n: nat): Result<(seq<string>, Parcel)> {
    if n == 0 then Ok(([], p))
    else if p == [] || !p[0].Str? || p[0].text == "" then Err(NOT_ENOUGH_DATA)
    else Continue([p[0].text], ReadStrings(p[1..], n - 1))
  }

  function MaxSection(es: seq<Entry>): int {
    if es == [] then 0
    else
      var m := MaxSection(es[..|es| - 1]);
      if m >= es[|es| - 1].section then m else es[|es| - 1].section
  }

  function NamePairs(es: seq<Entry>): (r: seq<(int, string)>)
    ensures |r| == |es| && forall i :: 0 <= i < |r| ==> r[i] == (es[i].tag, es[i].name)
  {
    seq(|es|, i requires 0 <= i < |es| => (es[i].tag, es[i].name))
  }

  function SectionPairs(es: seq<Entry>): (r: seq<(int, int)>)
    ensures |r| == |es| && forall i :: 0 <= i < |r| ==> r[i] == (es[i].tag, es[i].section)
  {
    seq(|es|, i requires 0 <= i < |es| => (es[i].tag, es[i].section))
  }

  function TypePairs(es: seq<Entry>): (r: seq<(int, int)>)
    ensures |r| == |es| && forall i :: 0 <= i < |r| ==> r[i] == (es[i].tag, es[i].kind)
  {
    seq(|es|, i requires 0 <= i < |es| => (es[i].tag, es[i].kind))
  }

  function SectionText(sections: seq<string>, i: int): string {
    if 0 <= i < |sections| then sections[i] else ""
  }

  /** The reverse mapping is rebuilt from the forward maps, tag by tag. */
  function EntryTriples(names: Keyed<int, string>, sectionOf: Keyed<int, int>, sections: seq<string>, es: seq<Entry>): (r: seq<Triple>)
    ensures |r| == |es|
    ensures forall i :: 0 <= i < |r| ==>
      r[i] == Triple(SectionText(sections, ValueFor(sectionOf, es[i].tag, 0)), ValueFor(names, es[i].tag, ""), es[i].tag)
  {
    seq(|es|, i requires 0 <= i < |es| =>
      Triple(SectionText(sections, ValueFor(sectionOf, es[i].tag, 0)), ValueFor(names, es[i].tag, ""), es[i].tag))
  }

  function FromEntries(es: seq<Entry>, sections: seq<string>, count: int): Descriptor {
    var names := AddAll(IntLess, NamePairs(es));
    var sectionOf := AddAll(IntLess, SectionPairs(es));
    Descriptor(names, sectionOf, AddAll(IntLess, TypePairs(es)), sections,
               Reverse(EntryTriples(names, sectionOf, sections, es)), count)
  }

  function IntoTable(r: Result<(seq<string>, Parcel)>): Result<(seq<string>, Parcel)> {
    match r case Err(e) => Err(e) case Ok((ss, p)) => Ok((AddSections(ss), p))
  }

  function ReadSections(p: Parcel, maxSection: int): Result<(seq<string>, Parcel)> {
    if !IntAt(p, 0) then Err(NOT_ENOUGH_DATA)
    else if p[0].bits < 0 || p[0].bits < Increment(maxSection) then Err(BAD_VALUE)
    else IntoTable(ReadStrings(p[1..], p[0].bits))
  }

  /** After the entries come the sections, unless there was no entry. */
  function ReadTail(es: seq<Entry>, count: int, p: Parcel): Result<(Descriptor, Parcel)> {
    if count == 0 then Ok((FromEntries(es, [], 0), p))
    else match ReadSections(p, MaxSection(es))
      case Err(e) => Err(e)
      case Ok((ss, p1)) => Ok((FromEntries(es, ss, count), p1))
  }

  function ReadBody(count: nat, p: Parcel): Result<(Descriptor, Parcel)> {
    match ReadEntries(p, count)
    case Err(e) => Err(e)
    case Ok((es, p1)) => ReadTail(es, count, p1)
  }

  /** `readFromParcel` into a fresh descriptor: what it becomes, and the unread rest. */
  function Read(p: Parcel): Result<(Descriptor, Parcel)> {
    match ReadI32(p)
    case Err(e) => Err(e)
    case Ok((bits, p1)) => if Signed(bits) < 0 then Err(BAD_VALUE) else ReadBody(Signed(bits), p1)
  }

  // ---------------------------------------------------------------- round trip

  predicate EntryFits(e: Entry) {
    VENDOR_TAG_BOUNDARY <= e.tag < UINT32_LIMIT && 0 <= e.kind < NUM_TYPES && 0 <= e.section < UINT32_LIMIT
  }

  lemma ReadWrittenEntry(e: Entry, rest: Parcel)
    requires EntryFits(e)
    ensures ReadEntry(WriteEntry(e) + rest) == if e.name == "" then Err(NOT_ENOUGH_DATA) else Ok((e, rest))
  {
    assert (WriteEntry(e) + rest)[4..] == rest;
  }

  predicate AllNamed(es: seq<Entry>) { es == [] || (es[0].name != "" && AllNamed(es[1..])) }

  lemma {:induction false} AllNamedMeans(es: seq<Entry>)
    ensures AllNamed(es) <==> forall i :: 0 <= i < |es| ==> es[i].name != ""
  {
    if es == [] {
    } else {
      AllNamedMeans(es[1..]);
      assert forall i :: 0 < i < |es| ==> es[i] == es[1..][i - 1];
    }
  }

  lemma ReadEntriesStep(p: Parcel, n: nat, e: Entry, p1: Parcel)
    requires n > 0 && ReadEntry(p) == Ok((e, p1))
    ensures ReadEntries(p, n) == Continue([e], ReadEntries(p1, n - 1))
  {
  }

  lemma ReadEntriesFails(p: Parcel, n: nat)
    requires n > 0 && ReadEntry(p).Err?
    ensures ReadEntries(p, n) == Err(ReadEntry(p).code)
  {
  }

  lemma ReadNoEntries(p: Parcel)
    ensures ReadEntries(p, 0) == Ok(([], p))
  {
  }

  lemma {:induction false} ReadWrittenEntries(es: seq<Entry>, rest: Parcel)
    requires forall e :: e in es ==> EntryFits(e)
    ensures ReadEntries(WriteEntries(es) + rest, |es|) == if AllNamed(es) then Ok((es, rest)) else Err(NOT_ENOUGH_DATA)
  {
    hide ReadEntry, ReadEntries, EntryFits;
    if es == [] {
      ReadNoEntries(rest);
      assert WriteEntries(es) + rest == rest;
    } else {
      var more, p := WriteEntries(es[1..]) + rest, WriteEntries(es) + rest;
      assert p == WriteEntry(es[0]) + more;
      ReadWrittenEntry(es[0], more);
      if es[0].name != "" {
        ReadWrittenEntries(es[1..], rest);
        ReadEntriesStep(p, |es|, es[0], more);
        assert es == [es[0]] + es[1..];
      } else {
        ReadEntriesFails(p, |es|);
      }
    }
  }

  /** Asked for more entries than were written, the reader takes the section count for a tag and refuses it. */
  lemma {:induction false} ReadTooManyEntries(es: seq<Entry>, n: nat, count: int, rest: Parcel)
    requires forall e :: e in es ==> EntryFits(e)
    requires n > |es| && 0 <= count < VENDOR_TAG_BOUNDARY
    ensures ReadEntries(WriteEntries(es) + ([I32(count)] + rest), n).Err?
    decreases |es|
  {
    var tail := [I32(count)] + rest;
    if es == [] {
      assert WriteEntries(es) + tail == tail;
    } else {
      var more, p := WriteEntries(es[1..]) + tail, WriteEntries(es) + tail;
      assert p == WriteEntry(es[0]) + more;
      ReadWrittenEntry(es[0], more);
      if es[0].name != "" {
        ReadTooManyEntries(es[1..], n - 1, count, rest);
        ReadEntriesStep(p, n, es[0], more);
      }
    }
  }

  lemma {:induction false} ReadWrittenStrings(ss: seq<string>, rest: Parcel)
    ensures ReadStrings(WriteStrings(ss) + rest, |ss|) == if "" in ss then Err(NOT_ENOUGH_DATA) else Ok((ss, rest))
  {
    if ss == [] {
      assert WriteStrings(ss) + rest == rest;
    } else {
      var more, p := WriteStrings(ss[1..]) + rest, WriteStrings(ss) + rest;
      assert p == [Str(ss[0])] + more;
      assert p[1..] == more && ss == [ss[0]] + ss[1..];
      if ss[0] != "" {
        ReadWrittenStrings(ss[1..], rest);
        assert ReadStrings(p, |ss|) == Continue([ss[0]], ReadStrings(more, |ss| - 1));
      }
    }
  }

  /** What every built descriptor satisfies. */
  ghost predicate DescriptorOk(d: Descriptor) {
    && Sorted(IntLess, d.names) && Sorted(IntLess, d.sectionOf) && Sorted(IntLess, d.types)
    && (forall t :: Find(d.names, t).Some? <==> Find(d.sectionOf, t).Some?)
    && (forall t :: Find(d.names, t).Some? <==> Find(d.types, t).Some?)
    && SortedStrings(d.sections) && |d.sections| < 0x8000_0000
    && (d.names == [] <==> d.sections == [])
    && (forall i :: 0 <= i < |d.names| ==> EntryFits(EntryAt(d, i)) && EntryAt(d, i).section < |d.sections|)
    && |d.names| <= d.tagCount < 0x8000_0000
    && (d.tagCount == 0 <==> d.names == [])
  }

  /** Listing one sorted table by the keys of another with the same keys rebuilds it. */
  lemma {:induction false} Aligned<V(!new), W(!new)>(a: Keyed<int, V>, b: Keyed<int, W>, pairs: seq<(int, W)>)
    requires Sorted(IntLess, a) && Sorted(IntLess, b) && |pairs| == |a|
    requires forall t :: Find(a, t).Some? <==> Find(b, t).Some?
    requires forall i :: 0 <= i < |a| ==> pairs[i].0 == a[i].0 && Find(b, a[i].0) == Some(pairs[i].1)
    ensures AddAll(IntLess, pairs) == b
  {
    OrdersTotal();
    assert Sorted(IntLess, pairs);
    forall p ensures p in pairs <==> p in b {
      var (k, w) := p;
      FindMember(IntLess, b, k);
      FindMember(IntLess, a, k);
      if p in b {
        assert Find(b, k) == Some(w);
        FindFirst(a, k);
        var i :| 0 <= i < |a| && a[i] == (k, Find(a, k).value);
        assert pairs[i] == p;
      }
      if p in pairs {
        var i :| 0 <= i < |a| && pairs[i] == p;
        assert (k, w) in b;
      }
    }
    Canonical(IntLess, pairs, b);
    AddAllSorted(IntLess, b);
  }

  lemma {:induction false} KeyFound<V(!new)>(kv: Keyed<int, V>, i: nat)
    requires Sorted(IntLess, kv) && i < |kv|
    ensures Find(kv, kv[i].0) == Some(kv[i].1)
  {
    OrdersTotal();
    FindMember(IntLess, kv, kv[i].0);
    assert (kv[i].0, kv[i].1) in kv;
  }

  lemma FromEntriesForward(d: Descriptor)
    requires DescriptorOk(d)
    ensures FromEntries(Entries(d), d.sections, d.tagCount).(reverse := d.reverse) == d
  {
    var es := Entries(d);
    OrdersTotal();
    assert NamePairs(es) == d.names;
    AddAllSorted(IntLess, d.names);
    forall i | 0 <= i < |es|
      ensures Find(d.sectionOf, d.names[i].0) == Some(es[i].section) && Find(d.types, d.names[i].0) == Some(es[i].kind)
    {
      KeyFound(d.names, i);
    }
    Aligned(d.names, d.sectionOf, SectionPairs(es));
    Aligned(d.names, d.types, TypePairs(es));
  }

  lemma {:induction false} MaxSectionBound(es: seq<Entry>, n: int)
    requires n > 0 && forall e :: e in es ==> 0 <= e.section < n
    ensures 0 <= MaxSection(es) < n
  {
    if es == [] {
    } else {
      MaxSectionBound(es[..|es| - 1], n);
    }
  }

  predicate NonEmptyStrings(d: Descriptor) {
    (forall i :: 0 <= i < |d.names| ==> d.names[i].1 != "") && "" !in d.sections
  }

  lemma ReadI32Back(v: int, rest: Parcel)
    ensures ReadI32([I32(v)] + rest) == Ok((v, rest))
  {
    assert ([I32(v)] + rest)[1..] == rest;
  }

  lemma SectionsWritten(ss: seq<string>, rest: Parcel)
    requires ss != []
    ensures WriteSections(ss) + rest == [I32(|ss|)] + (WriteStrings(ss) + rest)
  {
  }

  lemma {:induction false} SectionsBack(ss: seq<string>, rest: Parcel, maxSection: int)
    requires 0 <= maxSection < |ss| < 0x8000_0000
    ensures ReadSections(WriteSections(ss) + rest, maxSection)
         == if "" in ss then Err(NOT_ENOUGH_DATA) else Ok((AddSections(ss), rest))
  {
    var more := WriteStrings(ss) + rest;
    SectionsWritten(ss, rest);
    assert ([I32(|ss|)] + more)[1..] == more;
    ReadWrittenStrings(ss, rest);
  }

  lemma EntriesFit(d: Descriptor)
    requires DescriptorOk(d)
    ensures forall e :: e in Entries(d) ==> EntryFits(e) && 0 <= e.section < |d.sections|
  {
  }

  lemma ReadCounted(count: nat, body: Parcel)
    requires count < 0x8000_0000
    ensures Read([I32(Bits(count))] + body) == ReadBody(count, body)
  {
    var p := [I32(Bits(count))] + body;
    ReadI32Back(Bits(count), body);
    assert ReadI32(p) == Ok((count, body));
    assert Signed(count) == count;
  }

  lemma TailBack(d: Descriptor, rest: Parcel)
    requires DescriptorOk(d) && d.tagCount == |d.names|
    ensures ReadTail(Entries(d), d.tagCount, WriteSections(d.sections) + rest)
         == if "" in d.sections then Err(NOT_ENOUGH_DATA) else Ok((FromEntries(Entries(d), d.sections, d.tagCount), rest))
  {
    EntriesFit(d);
    if d.tagCount > 0 {
      MaxSectionBound(Entries(d), |d.sections|);
      AddSectionsSorted(d.sections);
      SectionsBack(d.sections, rest, MaxSection(Entries(d)));
    } else {
      assert WriteSections(d.sections) + rest == rest;
    }
  }

  lemma NamedEntries(d: Descriptor)
    ensures AllNamed(Entries(d)) <==> forall i :: 0 <= i < |d.names| ==> d.names[i].1 != ""
  {
    var es := Entries(d);
    AllNamedMeans(es);
    assert forall i :: 0 <= i < |d.names| ==> d.names[i].1 == es[i].name;
  }

  /** A sound descriptor with the right count is read back exactly when no string is empty. */
  lemma ReadWritten(d: Descriptor, rest: Parcel)
    requires DescriptorOk(d) && d.tagCount == |d.names|
    ensures Read(Write(d) + rest)
         == if NonEmptyStrings(d) then Ok((FromEntries(Entries(d), d.sections, d.tagCount), rest)) else Err(NOT_ENOUGH_DATA)
  {
    var es, tail := Entries(d), WriteSections(d.sections) + rest;
    assert Write(d) + rest == [I32(Bits(d.tagCount))] + (WriteEntries(es) + tail);
    ReadCounted(d.tagCount, WriteEntries(es) + tail);
    EntriesFit(d);
    ReadWrittenEntries(es, tail);
    NamedEntries(d);
    TailBack(d, rest);
  }

  /** With a count above the number of entries, reading fails. */
  lemma ReadMiscounted(d: Descriptor, rest: Parcel)
    requires DescriptorOk(d) && d.tagCount > |d.names|
    ensures Read(Write(d) + rest).Err?
  {
    var es, strings := Entries(d), WriteStrings(d.sections) + rest;
    var body := WriteEntries(es) + ([I32(|d.sections|)] + strings);
    EntriesFit(d);
    assert Write(d) + rest == [I32(Bits(d.tagCount))] + body;
    ReadCounted(d.tagCount, body);
    ReadTooManyEntries(es, d.tagCount, |d.sections|, strings);
  }

  // ------------------------------------------------------ built, written, read

  ghost predicate Distinct<T>(s: seq<T>) { forall i, j :: 0 <= i < j < |s| ==> s[i] != s[j] }

  lemma {:induction false} AddSize<V(!new)>(kv: Keyed<int, V>, k: int, v: V)
    ensures |Add(IntLess, kv, k, v)| <= |kv| + 1
    ensures Sorted(IntLess, kv) ==> (|Add(IntLess, kv, k, v)| == |kv| + 1 <==> Find(kv, k).None?)
    decreases |kv|
  {
    if kv == [] {
    } else {
      AddSize(kv[1..], k, v);
      if Sorted(IntLess, kv) && kv[0].0 != k && IntLess(k, kv[0].0) {
        FindFirst(kv, k);
      }
    }
  }

  lemma DistinctFront<T>(s: seq<T>)
    requires s != []
    ensures Distinct(s) <==> Distinct(s[..|s| - 1]) && s[|s| - 1] !in s[..|s| - 1]
  {
    if Distinct(s[..|s| - 1]) && s[|s| - 1] !in s[..|s| - 1] {
      assert forall i :: 0 <= i < |s| - 1 ==> s[i] == s[..|s| - 1][i] && s[i] in s[..|s| - 1];
    }
  }

  lemma {:induction false} TableSize<V(!new)>(tags: seq<int>, f: int -> V)
    ensures |Table(tags, f)| <= |tags|
    ensures |Table(tags, f)| == |tags| <==> Distinct(tags)
    ensures tags != [] ==> Table(tags, f) != []
  {
    if tags == [] {
    } else {
      var front, t := tags[..|tags| - 1], tags[|tags| - 1];
      TableSize(front, f);
      TableStep(tags, |tags| - 1, f);
      assert tags[..|tags|] == tags;
      TableSorted(front, f);
      AddSize(Table(front, f), t, f(t));
      FindTabulated(front, f, t);
      DistinctFront(tags);
      FindAfterAddAny(Table(front, f), t, f(t));
    }
  }

  lemma FindAfterAddAny<V>(kv: Keyed<int, V>, k: int, v: V)
    ensures Add(IntLess, kv, k, v) != []
  {
  }

  lemma TableStep<V(!new)>(tags: seq<int>, i: nat, f: int -> V)
    requires i < |tags|
    ensures Table(tags[..i + 1], f) == Add(IntLess, Table(tags[..i], f), tags[i], f(tags[i]))
  {
    assert Tabulate(tags[..i + 1], f)[..i] == Tabulate(tags[..i], f);
  }

  lemma TableSorted<V(!new)>(tags: seq<int>, f: int -> V)
    ensures Sorted(IntLess, Table(tags, f))
  {
    OrdersTotal();
    AddAllAssigns(IntLess, Tabulate(tags, f));
  }

  lemma TableKey<V(!new)>(tags: seq<int>, f: int -> V, i: nat)
    requires i < |Table(tags, f)|
    ensures Table(tags, f)[i].0 in tags && Table(tags, f)[i].1 == f(Table(tags, f)[i].0)
  {
    TableSorted(tags, f);
    KeyFound(Table(tags, f), i);
    FindTabulated(tags, f, Table(tags, f)[i].0);
  }

  lemma BuiltEntry(o: Ops, i: nat)
    requires OpsOk(o) && i < |Build(o).names|
    ensures
      var (e, t) := (EntryAt(Build(o), i), Build(o).names[i].0);
      && t in o.tags && e == Entry(t, o.info(t).kind, NameOf(o, t), Index(Build(o).sections, SectionOf(o, t)))
      && EntryFits(e) && e.section < |Build(o).sections|
      && Build(o).sections[e.section] == SectionOf(o, t)
  {
    var sections := AddSections(SectionList(o));
    var t := Build(o).names[i].0;
    TableKey(o.tags, Namer(o), i);
    FindTabulated(o.tags, Indexer(o, sections), t);
    FindTabulated(o.tags, Typer(o), t);
    OwnSection(o, t);
    SectionsFacts(SectionList(o));
  }

  lemma BuiltOk(o: Ops)
    requires OpsOk(o)
    ensures DescriptorOk(Build(o))
    ensures Build(o).tagCount == |Build(o).names| <==> Distinct(o.tags)
  {
    var d, sections := Build(o), AddSections(SectionList(o));
    TableSorted(o.tags, Namer(o));
    TableSorted(o.tags, Indexer(o, sections));
    TableSorted(o.tags, Typer(o));
    TableSize(o.tags, Namer(o));
    SectionsFacts(SectionList(o));
    forall t
      ensures Find(d.names, t).Some? <==> Find(d.sectionOf, t).Some?
      ensures Find(d.names, t).Some? <==> Find(d.types, t).Some?
    {
      FindTabulated(o.tags, Namer(o), t);
      FindTabulated(o.tags, Indexer(o, sections), t);
      FindTabulated(o.tags, Typer(o), t);
    }
    forall i | 0 <= i < |d.names| ensures EntryFits(EntryAt(d, i)) && EntryAt(d, i).section < |d.sections| {
      BuiltEntry(o, i);
    }
    if o.tags != [] {
      assert SectionList(o)[0] in sections;
    } else {
      assert sections == [];
    }
  }

  predicate NamesGiven(o: Ops) {
    forall t :: t in o.tags ==> NameOf(o, t) != "" && SectionOf(o, t) != ""
  }

  lemma BuiltStrings(o: Ops)
    requires OpsOk(o)
    ensures NonEmptyStrings(Build(o)) <==> NamesGiven(o)
  {
    var d := Build(o);
    SectionsFacts(SectionList(o));
    if NonEmptyStrings(d) {
      forall t | t in o.tags ensures NameOf(o, t) != "" && SectionOf(o, t) != "" {
        FindTabulated(o.tags, Namer(o), t);
        FindFirst(d.names, t);
        assert (t, NameOf(o, t)) in d.names;
        var i :| 0 <= i < |o.tags| && o.tags[i] == t;
        assert SectionList(o)[i] in d.sections;
      }
    }
    if NamesGiven(o) {
      forall i | 0 <= i < |d.names| ensures d.names[i].1 != "" { TableKey(o.tags, Namer(o), i); }
      forall s | s in d.sections ensures s != "" {
        var i :| 0 <= i < |o.tags| && SectionList(o)[i] == s;
        assert o.tags[i] in o.tags;
      }
    }
  }

  /** Of the tags that share a section and a name, the look-up finds the largest. */
  ghost predicate LargestWins(o: Ops) {
    forall t :: t in o.tags ==>
      var r := LookupTag(Build(o), NameOf(o, t), SectionOf(o, t));
      r.Ok? && r.value >= t
  }

  predicate SamePair(o: Ops, t: int, u: int) { NameOf(o, t) == NameOf(o, u) && SectionOf(o, t) == SectionOf(o, u) }

  /** No tag announced after the one at `i` shares its section and name. */
  ghost predicate LastOfPair(o: Ops, i: int)
    requires 0 <= i < |o.tags|
  {
    forall j :: i < j < |o.tags| ==> !SamePair(o, o.tags[i], o.tags[j])
  }

  /** Of the tags that share a section and a name, the one announced last is the largest. */
  ghost predicate LargestAnnouncedLast(o: Ops) {
    forall i, j :: 0 <= j < i < |o.tags| && LastOfPair(o, i) && SamePair(o, o.tags[i], o.tags[j]) ==> o.tags[j] <= o.tags[i]
  }

  lemma {:induction false} LastTagAt(ts: seq<Triple>, i: nat)
    requires i < |ts| && forall j :: i < j < |ts| ==> ts[j].section != ts[i].section || ts[j].name != ts[i].name
    ensures LastTag(ts, ts[i].section, ts[i].name) == Some(ts[i].tag)
  {
    if i == |ts| - 1 {
    } else {
      LastTagAt(ts[..|ts| - 1], i);
    }
  }

  /** The look-up of a pair finds the tag that was announced last under it. */
  lemma LookupFindsLast(o: Ops, i: nat)
    requires OpsOk(o) && i < |o.tags| && LastOfPair(o, i)
    ensures LookupTag(Build(o), NameOf(o, o.tags[i]), SectionOf(o, o.tags[i])) == Ok(o.tags[i])
  {
    var ts := Triples(o);
    forall j | i < j < |ts| ensures ts[j].section != ts[i].section || ts[j].name != ts[i].name {
      assert !SamePair(o, o.tags[i], o.tags[j]);
    }
    LastTagAt(ts, i);
    ReverseFacts(ts);
    assert Look(Build(o).reverse, ts[i].section, ts[i].name) == Some(o.tags[i]);
  }

  lemma {:induction false} LastOfItsPair(o: Ops, i: nat) returns (k: nat)
    requires i < |o.tags|
    ensures i <= k < |o.tags| && LastOfPair(o, k) && SamePair(o, o.tags[i], o.tags[k])
    decreases |o.tags| - i
  {
    if LastOfPair(o, i) {
      k := i;
    } else {
      var j :| i < j < |o.tags| && SamePair(o, o.tags[i], o.tags[j]);
      k := LastOfItsPair(o, j);
    }
  }

  /** The look-ups find the largest tags exactly when those were announced last. */
  lemma LargestWinsExactlyWhen(o: Ops)
    requires OpsOk(o)
    ensures LargestWins(o) <==> LargestAnnouncedLast(o)
  {
    hide Build, LookupTag;
    if LargestWins(o) {
      forall i, j | 0 <= j < i < |o.tags| && LastOfPair(o, i) && SamePair(o, o.tags[i], o.tags[j])
        ensures o.tags[j] <= o.tags[i]
      {
        LookupFindsLast(o, i);
        assert o.tags[j] in o.tags;
      }
    }
    if LargestAnnouncedLast(o) {
      forall t | t in o.tags
        ensures LookupTag(Build(o), NameOf(o, t), SectionOf(o, t)).Ok?
        ensures LookupTag(Build(o), NameOf(o, t), SectionOf(o, t)).value >= t
      {
        var i :| 0 <= i < |o.tags| && o.tags[i] == t;
        var k := LastOfItsPair(o, i);
        LookupFindsLast(o, k);
        assert k == i || o.tags[i] <= o.tags[k];
      }
    }
  }

  lemma UniqueMeansLargest(o: Ops)
    requires OpsOk(o) && UniquePairs(o)
    ensures LargestAnnouncedLast(o)
  {
    LookupInverse(o);
    LargestWinsExactlyWhen(o);
  }

  function RebuiltTriples(o: Ops): seq<Triple> {
    EntryTriples(Build(o).names, Build(o).sectionOf, Build(o).sections, Entries(Build(o)))
  }

  lemma {:induction false} LastIsLargest(ts: seq<Triple>, s: string, n: string)
    requires forall i, j :: 0 <= i < j < |ts| ==> ts[i].tag < ts[j].tag
    ensures LargestLasts(ts, s, n)
  {
    if ts == [] {
    } else {
      LastIsLargest(ts[..|ts| - 1], s, n);
      assert ts == ts[..|ts| - 1] + [ts[|ts| - 1]];
    }
  }

  lemma RebuiltIs(o: Ops)
    requires OpsOk(o)
    ensures FromEntries(Entries(Build(o)), Build(o).sections, Build(o).tagCount).reverse == Reverse(RebuiltTriples(o))
  {
    BuiltOk(o);
    FromEntriesForward(Build(o));
  }

  lemma LargestRestores(o: Ops)
    requires OpsOk(o) && LargestWins(o)
    ensures Reverse(RebuiltTriples(o)) == Reverse(Triples(o))
  {
    ReverseFacts(RebuiltTriples(o));
    ReverseFacts(Triples(o));
    forall s, n ensures Look(Reverse(RebuiltTriples(o)), s, n) == Look(Reverse(Triples(o)), s, n) { SameLastTag(o, s, n); }
    ReverseDetermined(Reverse(RebuiltTriples(o)), Reverse(Triples(o)));
  }

  lemma RestoredLargest(o: Ops, t: int)
    requires OpsOk(o) && Reverse(RebuiltTriples(o)) == Reverse(Triples(o)) && t in o.tags
    ensures LookupTag(Build(o), NameOf(o, t), SectionOf(o, t)).Ok? && LookupTag(Build(o), NameOf(o, t), SectionOf(o, t)).value >= t
  {
    var s, n := SectionOf(o, t), NameOf(o, t);
    RebuiltLargest(o, s, n);
    TripleMember(o, Triple(s, n, t));
    RebuiltTriple(o, Triple(s, n, t));
    ReverseFacts(RebuiltTriples(o));
    assert Look(Build(o).reverse, s, n) == LastTag(RebuiltTriples(o), s, n);
  }

  /** The reader adds the tags in increasing order, so it restores the reverse index exactly when the largest came last. */
  lemma RebuiltReverse(o: Ops)
    requires OpsOk(o)
    ensures FromEntries(Entries(Build(o)), Build(o).sections, Build(o).tagCount).reverse == Build(o).reverse <==> LargestAnnouncedLast(o)
  {
    LargestWinsExactlyWhen(o);
    RebuiltIs(o);
    if LargestWins(o) { LargestRestores(o); }
    if Reverse(RebuiltTriples(o)) == Reverse(Triples(o)) {
      forall t | t in o.tags { RestoredLargest(o, t); }
    }
  }

  lemma RebuiltLargest(o: Ops, s: string, n: string)
    requires OpsOk(o)
    ensures LargestLasts(RebuiltTriples(o), s, n)
  {
    TableSorted(o.tags, Namer(o));
    LastIsLargest(RebuiltTriples(o), s, n);
  }

  lemma RebuiltTriple(o: Ops, t: Triple)
    requires OpsOk(o)
    ensures
      var d := Build(o);
      t in EntryTriples(d.names, d.sectionOf, d.sections, Entries(d)) <==> t in Triples(o)
  {
    var d := Build(o);
    var ts := EntryTriples(d.names, d.sectionOf, d.sections, Entries(d));
    TripleMember(o, t);
    FindTabulated(o.tags, Namer(o), t.tag);
    if t in ts {
      var i :| 0 <= i < |ts| && ts[i] == t;
      BuiltEntry(o, i);
    }
    if t in Triples(o) {
      FindFirst(d.names, t.tag);
      var i :| 0 <= i < |d.names| && d.names[i] == (t.tag, NameOf(o, t.tag));
      BuiltEntry(o, i);
      assert ts[i] == t;
    }
  }

  lemma LargestLast(o: Ops, t: Triple)
    requires OpsOk(o) && LargestWins(o) && t in Triples(o)
    ensures LastTag(Triples(o), t.section, t.name).Some? && LastTag(Triples(o), t.section, t.name).value >= t.tag
  {
    TripleMember(o, t);
    ReverseFacts(Triples(o));
    assert Look(Build(o).reverse, t.section, t.name) == LastTag(Triples(o), t.section, t.name);
  }

  ghost predicate LargestLasts(ts: seq<Triple>, s: string, n: string) {
    forall t :: t in ts && t.section == s && t.name == n ==> LastTag(ts, s, n).Some? && t.tag <= LastTag(ts, s, n).value
  }

  lemma {:induction false} SameLast(ts: seq<Triple>, us: seq<Triple>, s: string, n: string)
    requires forall t :: t in ts <==> t in us
    requires LargestLasts(ts, s, n) && LargestLasts(us, s, n)
    ensures LastTag(ts, s, n) == LastTag(us, s, n)
  {
    LastTagFacts(ts, s, n);
    LastTagFacts(us, s, n);
    var a, b := LastTag(ts, s, n), LastTag(us, s, n);
    if a.Some? { assert Triple(s, n, a.value) in us; }
    if b.Some? { assert Triple(s, n, b.value) in ts; }
  }

  lemma {:induction false} SameLastTag(o: Ops, s: string, n: string)
    requires OpsOk(o) && LargestWins(o)
    ensures LastTag(RebuiltTriples(o), s, n) == LastTag(Triples(o), s, n)
  {
    RebuiltLargest(o, s, n);
    forall t ensures t in RebuiltTriples(o) <==> t in Triples(o) { RebuiltTriple(o, t); }
    forall t | t in Triples(o) && t.section == s && t.name == n
      ensures LastTag(Triples(o), s, n).Some? && t.tag <= LastTag(Triples(o), s, n).value
    {
      LargestLast(o, t);
    }
    SameLast(RebuiltTriples(o), Triples(o), s, n);
  }

  /**
    Main theorem.  A descriptor built from the operations is read back from its parcel, in
    front of anything, exactly when the tags are distinct and no name or section is empty;
    then names, types, section indices and sections are restored, and the copy is equal in
    every field, reverse index included, exactly when, of the tags that share a section and
    a name, the one announced last is the largest, as it is when those pairs are unique.
  */
  lemma ParcelRoundTrip(o: Ops, rest: Parcel)
    requires OpsOk(o)
    ensures
      var r := Read(Write(Build(o)) + rest);
      && (r.Ok? <==> Distinct(o.tags) && NamesGiven(o))
      && (r.Ok? ==> r.value.0.(reverse := []) == Build(o).(reverse := []) && r.value.1 == rest)
      && (r.Ok? ==> (r.value.0 == Build(o) <==> LargestAnnouncedLast(o)))
  {
    hide LargestWins, LargestAnnouncedLast;
    BuiltOk(o);
    BuiltStrings(o);
    if Distinct(o.tags) { ReadWritten(Build(o), rest); } else { ReadMiscounted(Build(o), rest); }
    FromEntriesForward(Build(o));
    RebuiltReverse(o);
  }

  /** Whatever was announced last, the copy's look-up finds the largest tag of a pair. */
  lemma CopyFindsLargest(o: Ops, rest: Parcel, t: int)
    requires OpsOk(o) && Distinct(o.tags) && NamesGiven(o) && t in o.tags
    ensures
      var r := Read(Write(Build(o)) + rest);
      r.Ok? &&
      var u := LookupTag(r.value.0, NameOf(o, t), SectionOf(o, t));
      u.Ok? && u.value in o.tags && SamePair(o, t, u.value) && t <= u.value
  {
    hide Build, Read, Write, Reverse, RebuiltTriples;
    CopyReverse(o, rest);
    LargestRebuilt(o, t);
  }

  lemma CopyReverse(o: Ops, rest: Parcel)
    requires OpsOk(o) && Distinct(o.tags) && NamesGiven(o)
    ensures
      var r := Read(Write(Build(o)) + rest);
      r.Ok? && r.value.0.reverse == Reverse(RebuiltTriples(o))
  {
    hide Build, Read, Write, Reverse, RebuiltTriples, FromEntries, Entries;
    BuiltOk(o);
    BuiltStrings(o);
    ReadWritten(Build(o), rest);
    RebuiltIs(o);
  }

  lemma LargestRebuilt(o: Ops, t: int)
    requires OpsOk(o) && t in o.tags
    ensures
      var u := Look(Reverse(RebuiltTriples(o)), SectionOf(o, t), NameOf(o, t));
      u.Some? && u.value in o.tags && SamePair(o, t, u.value) && t <= u.value
  {
    var s, n := SectionOf(o, t), NameOf(o, t);
    RebuiltLargest(o, s, n);
    TripleMember(o, Triple(s, n, t));
    RebuiltTriple(o, Triple(s, n, t));
    ReverseFacts(RebuiltTriples(o));
    LastTagFacts(RebuiltTriples(o), s, n);
    var u := LastTag(RebuiltTriples(o), s, n).value;
    RebuiltTriple(o, Triple(s, n, u));
    TripleMember(o, Triple(s, n, u));
  }

  /** Two tags under one name, the larger announced first. */
  const SharedPair := Ops(2, [0x8000_0001, 0x8000_0000], (t: int) => TagInfo(Some("n"), Some("s"), 0))

  /** The descriptor finds the one, the copy read from its parcel the other. */
  lemma CopyFindsOther(rest: Parcel)
    ensures OpsOk(SharedPair) && Distinct(SharedPair.tags) && NamesGiven(SharedPair)
    ensures
      var d, r := Build(SharedPair), Read(Write(Build(SharedPair)) + rest);
      && LookupTag(d, "n", "s") == Ok(0x8000_0000)
      && r.Ok? && LookupTag(r.value.0, "n", "s") == Ok(0x8000_0001)
  {
    hide Build, Read, Write, LookupTag;
    var o := SharedPair;
    assert o.tags[0] == 0x8000_0001 && o.tags[1] == 0x8000_0000;
    assert forall t :: t in o.tags <==> t == 0x8000_0000 || t == 0x8000_0001;
    LookupFindsLast(o, 1);
    CopyFindsLargest(o, rest, 0x8000_0001);
  }

  // ------------------------------------------------------------------- the cache

  /**
    The cache writes and reads its descriptors through the parcelable interface, given here
    as `write` and `read`.  `c` lists the vendors in the (arbitrary) order of the hash map.
  */
  function WriteVendors<D>(write: D -> Parcel, c: seq<(int, D)>): Parcel {
    if c == [] then [] else [U64(c[0].0)] + write(c[0].1) + WriteVendors(write, c[1..])
  }

  function WriteCache<D>(write: D -> Parcel, c: seq<(int, D)>): Parcel { [I32(Bits(|c|))] + WriteVendors(write, c) }

  type Reader<D> = Parcel -> Result<(D, Parcel)>

  function ReadVendors<D>(read: Reader<D>, p: Parcel, n: nat, m: map<int, D>): Result<(map<int, D>, Parcel)>
    decreases n
  {
    if n == 0 then Ok((m, p))
    else if p == [] || !p[0].U64? then Err(NOT_ENOUGH_DATA)
    else match read(p[1..])
      case Err(e) => Err(e)
      case Ok((d, p1)) =>
        if p[0].value in m then Err(BAD_VALUE) else ReadVendors(read, p1, n - 1, m[p[0].value := d])
  }

  function ReadCache<D>(read: Reader<D>, p: Parcel): Result<(map<int, D>, Parcel)> {
    match ReadI32(p)
    case Err(e) => Err(e)
    case Ok((bits, p1)) => if Signed(bits) < 0 then Err(BAD_VALUE) else ReadVendors(read, p1, Signed(bits), map[])
  }

  ghost predicate Survives<D>(write: D -> Parcel, read: Reader<D>, d: D) {
    forall rest: Parcel :: read(write(d) + rest) == Ok((d, rest))
  }

  /** `c` lists the map `m`, each vendor once. */
  ghost predicate Listing<D>(c: seq<(int, D)>, m: map<int, D>) {
    && (forall i :: 0 <= i < |c| ==> c[i].0 in m && m[c[i].0] == c[i].1)
    && (forall id :: id in m ==> exists i :: 0 <= i < |c| && c[i].0 == id)
    && (forall i, j :: 0 <= i < j < |c| ==> c[i].0 != c[j].0)
  }

  lemma {:induction false} VendorsRoundTrip<D>(write: D -> Parcel, read: Reader<D>, c: seq<(int, D)>, k: nat,
                                               m: map<int, D>, got: map<int, D>, rest: Parcel)
    requires k <= |c| && Listing(c, m) && forall i :: 0 <= i < |c| ==> Survives(write, read, c[i].1)
    requires forall id :: id in got <==> exists i :: 0 <= i < k && c[i].0 == id
    requires forall id :: id in got ==> id in m && got[id] == m[id]
    ensures ReadVendors(read, WriteVendors(write, c[k..]) + rest, |c| - k, got) == Ok((m, rest))
    decreases |c| - k
  {
    if k == |c| {
      assert WriteVendors(write, c[k..]) + rest == rest;
      assert forall id :: id in got <==> id in m;
      assert forall id :: id in m ==> got[id] == m[id];
      assert got.Keys == m.Keys;
      assert got == m;
    } else {
      var (id, d) := c[k];
      var more := WriteVendors(write, c[k + 1..]) + rest;
      var p := WriteVendors(write, c[k..]) + rest;
      assert c[k..][1..] == c[k + 1..];
      assert p == [U64(id)] + (write(d) + more);
      assert p[1..] == write(d) + more;
      assert Survives(write, read, c[k].1);
      VendorsRoundTrip(write, read, c, k + 1, m, got[id := d], rest);
    }
  }

  /** A cache of descriptors that survive survives, whatever order its vendors are listed in. */
  lemma CacheRoundTrip<D>(write: D -> Parcel, read: Reader<D>, c: seq<(int, D)>, m: map<int, D>, rest: Parcel)
    requires |c| < 0x8000_0000 && Listing(c, m)
    requires forall i :: 0 <= i < |c| ==> Survives(write, read, c[i].1)
    ensures ReadCache(read, WriteCache(write, c) + rest) == Ok((m, rest))
  {
    var body := WriteVendors(write, c) + rest;
    assert WriteCache(write, c) + rest == [I32(Bits(|c|))] + body;
    ReadI32Back(|c|, body);
    assert c[0..] == c;
    VendorsRoundTrip(write, read, c, 0, m, map[], rest);
  }

  /** Every descriptor built from well-behaved operations survives ... */
  lemma BuiltSurvives(o: Ops)
    requires OpsOk(o) && Distinct(o.tags) && NamesGiven(o) && UniquePairs(o)
    ensures Survives(Write, Read, Build(o))
  {
    UniqueMeansLargest(o);
    forall rest: Parcel ensures Read(Write(Build(o)) + rest) == Ok((Build(o), rest)) {
      ParcelRoundTrip(o, rest);
    }
  }

  /** ... and so does every cache of them. */
  lemma BuiltCacheRoundTrip(os: seq<(int, Ops)>, c: seq<(int, Descriptor)>, m: map<int, Descriptor>, rest: Parcel)
    requires |os| == |c| < 0x8000_0000 && Listing(c, m)
    requires forall i :: 0 <= i < |c| ==> Behaved(os[i].1) && c[i] == (os[i].0, Build(os[i].1))
    ensures ReadCache(Read, WriteCache(Write, c) + rest) == Ok((m, rest))
  {
    forall i | 0 <= i < |c| ensures Survives(Write, Read, c[i].1) { BuiltSurvives(os[i].1); }
    CacheRoundTrip(Write, Read, c, m, rest);
  }

  ghost predicate Behaved(o: Ops) { OpsOk(o) && Distinct(o.tags) && NamesGiven(o) && UniquePairs(o) }

  // ------------------------------------------------------------------- the class

  /** The operations fill as many tags as they announce, and a tag is 32 bits wide. */
  predicate OpsShape(o: Ops) {
    o.count < 0x8000_0000 && (o.count >= 0 ==> |o.tags| == o.count) && forall i :: 0 <= i < |o.tags| ==> 0 <= o.tags[i] < UINT32_LIMIT
  }

  lemma TriplesStep(ts: seq<Triple>, i: nat)
    requires i < |ts|
    ensures Reverse(ts[..i + 1]) == AddReverse(Reverse(ts[..i]), ts[i])
  {
    assert ts[..i + 1][..i] == ts[..i];
  }

  lemma SectionsStep(ss: seq<string>, i: nat)
    requires i < |ss|
    ensures AddSections(ss[..i + 1]) == AddSection(AddSections(ss[..i]), ss[i])
  {
    assert ss[..i + 1][..i] == ss[..i];
  }

  lemma NegativeCount(o: Ops)
    requires o.count < 0
    ensures !OpsOk(o)
  {
  }

  lemma OpsOkByIndex(o: Ops)
    requires OpsShape(o) && o.count >= 0
    ensures OpsOk(o) <==> forall j :: 0 <= j < |o.tags| ==> TagOk(o.info, o.tags[j])
  {
    assert forall j :: 0 <= j < |o.tags| ==> o.tags[j] in o.tags;
  }

  function Sectioner(o: Ops): int -> string { (t: int) => SectionOf(o, t) }

  /** What the first loop builds. */
  datatype Tables = Tables(names: Keyed<int, string>, types: Keyed<int, int>, sections: seq<string>, sectionNames: Keyed<int, string>)

  function AddTag(t: Tables, tag: int, name: string, section: string, kind: int): Tables {
    Tables(Add(IntLess, t.names, tag, name), Add(IntLess, t.types, tag, kind),
           AddSection(t.sections, section), Add(IntLess, t.sectionNames, tag, section))
  }

  function Gather(o: Ops, i: nat): Tables
    requires i <= |o.tags|
  {
    if i == 0 then Tables([], [], [], [])
    else AddTag(Gather(o, i - 1), o.tags[i - 1], NameOf(o, o.tags[i - 1]), SectionOf(o, o.tags[i - 1]), o.info(o.tags[i - 1]).kind)
  }

  lemma {:induction false} Gathered(o: Ops, i: nat)
    requires i <= |o.tags|
    ensures Gather(o, i) == Tables(Table(o.tags[..i], Namer(o)), Table(o.tags[..i], Typer(o)),
                                   AddSections(SectionList(o)[..i]), Table(o.tags[..i], Sectioner(o)))
  {
    hide Table, AddSections, Add, AddSection, Gather;
    if i == 0 {
      TablesNone(o);
      GatherNone(o);
    } else {
      Gathered(o, i - 1);
      TableStep(o.tags, i - 1, Namer(o));
      TableStep(o.tags, i - 1, Typer(o));
      TableStep(o.tags, i - 1, Sectioner(o));
      SectionsStep(SectionList(o), i - 1);
      GatherStep(o, i - 1);
    }
  }

  lemma TablesNone(o: Ops)
    ensures Table(o.tags[..0], Namer(o)) == [] && Table(o.tags[..0], Typer(o)) == [] && Table(o.tags[..0], Sectioner(o)) == []
    ensures AddSections(SectionList(o)[..0]) == []
  {
    assert o.tags[..0] == [];
    assert Tabulate([], Namer(o)) == [] && Tabulate([], Typer(o)) == [] && Tabulate([], Sectioner(o)) == [];
  }

  lemma GatherNone(o: Ops)
    ensures Gather(o, 0) == Tables([], [], [], [])
  {
  }

  lemma GatherStep(o: Ops, i: nat)
    requires i < |o.tags|
    ensures
      var t, tag := Gather(o, i), o.tags[i];
      Gather(o, i + 1) == Tables(Add(IntLess, t.names, tag, Namer(o)(tag)), Add(IntLess, t.types, tag, Typer(o)(tag)),
                                 AddSection(t.sections, SectionList(o)[i]), Add(IntLess, t.sectionNames, tag, Sectioner(o)(tag)))
  {
  }

  lemma {:induction false} AllGathered(o: Ops)
    ensures Gather(o, |o.tags|) == Tables(Table(o.tags, Namer(o)), Table(o.tags, Typer(o)),
                                          AddSections(SectionList(o)), Table(o.tags, Sectioner(o)))
  {
    Gathered(o, |o.tags|);
    assert o.tags[..|o.tags|] == o.tags && SectionList(o)[..|o.tags|] == SectionList(o);
  }

  lemma ContinueFromNone(r: Result<(seq<Entry>, Parcel)>)
    ensures Continue([], r) == r
  {
    if r.Ok? { assert [] + r.value.0 == r.value.0; }
  }

  lemma ContinueFails(es: seq<Entry>, e: int)
    ensures Continue<Entry>(es, Err(e)) == Err(e)
  {
  }

  lemma ContinueDone(es: seq<Entry>, p: Parcel)
    ensures Continue(es, Ok(([], p))) == Ok((es, p))
  {
    assert es + [] == es;
  }

  lemma ContinueStep(es: seq<Entry>, e: Entry, r: Result<(seq<Entry>, Parcel)>)
    ensures Continue(es, Continue([e], r)) == Continue(es + [e], r)
  {
    if r.Ok? { assert es + ([e] + r.value.0) == (es + [e]) + r.value.0; }
  }

  lemma PairsNone()
    ensures AddAll(IntLess, NamePairs([])) == [] && AddAll(IntLess, SectionPairs([])) == [] && AddAll(IntLess, TypePairs([])) == []
  {
  }

  lemma PairsStep(es: seq<Entry>, e: Entry)
    ensures AddAll(IntLess, NamePairs(es + [e])) == Add(IntLess, AddAll(IntLess, NamePairs(es)), e.tag, e.name)
    ensures AddAll(IntLess, SectionPairs(es + [e])) == Add(IntLess, AddAll(IntLess, SectionPairs(es)), e.tag, e.section)
    ensures AddAll(IntLess, TypePairs(es + [e])) == Add(IntLess, AddAll(IntLess, TypePairs(es)), e.tag, e.kind)
  {
    assert NamePairs(es + [e])[..|es|] == NamePairs(es);
    assert SectionPairs(es + [e])[..|es|] == SectionPairs(es);
    assert TypePairs(es + [e])[..|es|] == TypePairs(es);
  }

  class VendorTagDescriptor {
    var names: Keyed<int, string>
    var sectionOf: Keyed<int, int>
    var types: Keyed<int, int>
    var sections: seq<string>
    var reverse: Keyed<string, Keyed<string, int>>
    var tagCount: int

    function View(): Descriptor
      reads this
    {
      Descriptor(names, sectionOf, types, sections, reverse, tagCount)
    }

    constructor ()
      ensures View() == EmptyDescriptor
    {
      names, sectionOf, types, sections, reverse, tagCount := [], [], [], [], [], 0;
    }

    /** Take the name, type and section of every tag, or stop at the first bad answer. */
    static method Collect(o: Ops) returns (ok: bool, t: Tables)
      requires OpsShape(o)
      ensures ok <==> forall j :: 0 <= j < |o.tags| ==> TagOk(o.info, o.tags[j])
      ensures ok ==> t == Gather(o, |o.tags|)
    {
      hide AddTag;
      t := Tables([], [], [], []);
      for i := 0 to |o.tags|
        invariant forall j :: 0 <= j < i ==> TagOk(o.info, o.tags[j])
        invariant t == Gather(o, i)
      {
        var tag := o.tags[i];
        if !Acceptable(tag, o.info(tag)) {
          return false, t;
        }
        t := AddTag(t, tag, o.info(tag).name.value, o.info(tag).section.value, o.info(tag).kind);
      }
      ok := true;
    }

    static method CreateDescriptorFromOps(o: Ops) returns (r: Result<VendorTagDescriptor>)
      requires OpsShape(o)
      ensures r.Ok? <==> Create(o).Ok?
      ensures r.Err? ==> r.code == BAD_VALUE
      ensures r.Ok? ==> fresh(r.value) && r.value.View() == Create(o).value
    {
      hide OpsOk, Gather, Table, AddSections;
      if o.count < 0 {
        NegativeCount(o);
        return Err(BAD_VALUE);
      }
      OpsOkByIndex(o);
      var ok, t := Collect(o);
      if !ok {
        return Err(BAD_VALUE);
      }
      AllGathered(o);
      var sectionOf, reverse := IndexAll(o, t.names, t.sections, t.sectionNames);
      var desc := new VendorTagDescriptor();
      desc.names, desc.sectionOf, desc.types, desc.sections := t.names, sectionOf, t.types, t.sections;
      desc.reverse, desc.tagCount := reverse, o.count;
      r := Ok(desc);
    }

    /** The second loop: section indices and the reverse mapping, from the finished section table. */
    static method IndexAll(o: Ops, names: Keyed<int, string>, sections: seq<string>, sectionNames: Keyed<int, string>)
      returns (sectionOf: Keyed<int, int>, reverse: Keyed<string, Keyed<string, int>>)
      requires names == Table(o.tags, Namer(o)) && sectionNames == Table(o.tags, Sectioner(o))
      ensures sectionOf == Table(o.tags, Indexer(o, sections))
      ensures reverse == Reverse(Triples(o))
    {
      sectionOf, reverse := [], [];
      for i := 0 to |o.tags|
        invariant sectionOf == Table(o.tags[..i], Indexer(o, sections))
        invariant reverse == Reverse(Triples(o)[..i])
      {
        var tag := o.tags[i];
        FindTabulated(o.tags, Namer(o), tag);
        FindTabulated(o.tags, Sectioner(o), tag);
        TableStep(o.tags, i, Indexer(o, sections));
        TriplesStep(Triples(o), i);
        var section := Find(sectionNames, tag).value;
        var index := match IndexOf(sections, section) case None => 0 case Some(k) => k;
        sectionOf := Add(IntLess, sectionOf, tag, index);
        reverse := AddReverse(reverse, Triple(section, Find(names, tag).value, tag));
      }
      assert o.tags[..|o.tags|] == o.tags && Triples(o)[..|o.tags|] == Triples(o);
    }

    method WriteToParcel() returns (p: Parcel)
      ensures p == Write(View())
    {
      var es := Entries(View());
      p := [I32(Bits(tagCount))];
      for i := 0 to |names|
        invariant p + WriteEntries(es[i..]) == [I32(Bits(tagCount))] + WriteEntries(es)
      {
        var tag := names[i].0;
        assert es[i..][1..] == es[i + 1..] && es[i..][0] == EntryAt(View(), i);
        var e := [I32(Bits(tag)), I32(Bits(ValueFor(types, tag, 0))), Str(names[i].1), I32(Bits(ValueFor(sectionOf, tag, 0)))];
        assert (p + e) + WriteEntries(es[i + 1..]) == p + (e + WriteEntries(es[i + 1..]));
        p := p + e;
      }
      assert p == [I32(Bits(tagCount))] + WriteEntries(es);
      if |sections| > 0 {
        ghost var head := p;
        p := p + [I32(Bits(|sections|))];
        for i := 0 to |sections|
          invariant p + WriteStrings(sections[i..]) == head + WriteSections(sections)
        {
          assert sections[i..][1..] == sections[i + 1..];
          assert (p + [Str(sections[i])]) + WriteStrings(sections[i + 1..]) == p + ([Str(sections[i])] + WriteStrings(sections[i + 1..]));
          p := p + [Str(sections[i])];
        }
      }
    }

    ghost predicate ForwardIs(es: seq<Entry>)
      reads this
    {
      && names == AddAll(IntLess, NamePairs(es))
      && sectionOf == AddAll(IntLess, SectionPairs(es))
      && types == AddAll(IntLess, TypePairs(es))
    }

    method AddEntry(ghost es: seq<Entry>, e: Entry)
      requires ForwardIs(es)
      modifies `names, `sectionOf, `types
      ensures ForwardIs(es + [e])
    {
      PairsStep(es, e);
      names := Add(IntLess, names, e.tag, e.name);
      sectionOf := Add(IntLess, sectionOf, e.tag, e.section);
      types := Add(IntLess, types, e.tag, e.kind);
    }

    /** Read `n` entries into the three forward maps. */
    method ReadForward(p: Parcel, n: nat) returns (r: Result<(seq<Entry>, Parcel)>)
      requires names == [] && sectionOf == [] && types == []
      modifies `names, `sectionOf, `types
      ensures r == ReadEntries(p, n)
      ensures r.Ok? ==> ForwardIs(r.value.0)
    {
      hide ReadEntry, ReadEntries, Continue, AddAll, NamePairs, SectionPairs, TypePairs;
      PairsNone();
      var es: seq<Entry>, rest := [], p;
      ContinueFromNone(ReadEntries(p, n));
      for i := 0 to n
        invariant Continue(es, ReadEntries(rest, n - i)) == ReadEntries(p, n)
        invariant ForwardIs(es)
      {
        var next := ReadEntry(rest);
        if next.Err? {
          ReadEntriesFails(rest, n - i);
          ContinueFails(es, next.code);
          return Err(next.code);
        }
        var (e, more) := next.value;
        ReadEntriesStep(rest, n - i, e, more);
        ContinueStep(es, e, ReadEntries(more, n - i - 1));
        AddEntry(es, e);
        es, rest := es + [e], more;
      }
      r := Ok((es, rest));
      ReadNoEntries(rest);
      ContinueDone(es, rest);
    }

    /** Set up the reverse mapping from the forward maps. */
    method RebuildReverse(es: seq<Entry>)
      requires reverse == []
      modifies `reverse
      ensures reverse == Reverse(EntryTriples(names, sectionOf, sections, es))
    {
      ghost var ts := EntryTriples(names, sectionOf, sections, es);
      for i := 0 to |es|
        invariant reverse == Reverse(ts[..i])
      {
        TriplesStep(ts, i);
        var tag := es[i].tag;
        reverse := AddReverse(reverse, Triple(SectionText(sections, ValueFor(sectionOf, tag, 0)), ValueFor(names, tag, ""), tag));
      }
      assert ts[..|es|] == ts;
    }

    method ReadFromParcel(p: Parcel) returns (r: Result<Parcel>)
      requires View() == EmptyDescriptor
      modifies this
      ensures match Read(p) case Ok((d, rest)) => r == Ok(rest) && View() == d case Err(e) => r == Err(e)
    {
      var count;
      var rest;
      match ReadI32(p) {
        case Err(e) => return Err(e);
        case Ok((bits, p1)) => count, rest := Signed(bits), p1;
      }
      if count < 0 {
        return Err(BAD_VALUE);
      }
      tagCount := count;
      var entries := ReadForward(rest, count);
      match entries {
        case Err(e) => r := Err(e);
        case Ok((es, p2)) =>
          r := Ok(p2);
          if count > 0 {
            match ReadSections(p2, MaxSection(es)) {
              case Err(e) => return Err(e);
              case Ok((ss, p3)) => sections, r := ss, Ok(p3);
            }
          }
          RebuildReverse(es);
      }
    }
  }
}
