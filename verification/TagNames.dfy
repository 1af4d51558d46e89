/**
  `CameraMetadata::getTagFromName` (camera/CameraMetadata.cpp:789-881): a full tag name is
  split at the longest section name that begins it, and the rest is looked up in that
  section.

  The tables of built-in sections and tags are generated outside the repository and are
  parameters here.
*/
module TagNames {
  import opened Basics
  import opened SortedVectors
  import opened VendorTags

  const NAME_NOT_FOUND := -2

  /** Built-in section names, their tag ranges [lo, hi), and the name of every built-in tag. */
  datatype BuiltIn = BuiltIn(sections: seq<string>, bounds: seq<(int, int)>, tagName: int -> string)

  predicate TablesOk(b: BuiltIn) {
    && |b.bounds| == |b.sections|
    && (forall i :: 0 <= i < |b.bounds| ==> 0 <= b.bounds[i].0 <= b.bounds[i].1 <= VENDOR_TAG_BOUNDARY)
    && (forall i, j :: 0 <= i < j < |b.bounds| ==> b.bounds[i].1 <= b.bounds[j].0 || b.bounds[j].1 <= b.bounds[i].0)
  }

  function AllSections(b: BuiltIn, d: Option<Descriptor>): seq<string> {
    b.sections + if d.None? then [] else d.value.sections
  }

  predicate Begins(s: string, name: string) { |s| <= |name| && name[..|s|] == s }

  // ----------------------------------------------------------- longest section

  /** `i` is the longest section that begins the name, and the first of that length. */
  ghost predicate Longest(sections: seq<string>, name: string, i: int) {
    && 0 <= i < |sections|
    && Begins(sections[i], name)
    && forall j :: 0 <= j < |sections| && Begins(sections[j], name) ==>
         |sections[j]| < |sections[i]| || (|sections[j]| == |sections[i]| && i <= j)
  }

  function BestOf(sections: seq<string>, name: string, n: nat): Option<nat>
    requires n <= |sections|
  {
    if n == 0 then None
    else
      var best := BestOf(sections, name, n - 1);
      if Begins(sections[n - 1], name) && (best.None? || best.value >= |sections| || |sections[best.value]| < |sections[n - 1]|)
      then Some(n - 1) else best
  }

  function Best(sections: seq<string>, name: string): Option<nat> { BestOf(sections, name, |sections|) }

  lemma {:induction false} BestOfIsLongest(sections: seq<string>, name: string, n: nat)
    requires n <= |sections|
    ensures
      match BestOf(sections, name, n)
      case None => forall j :: 0 <= j < n ==> !Begins(sections[j], name)
      case Some(i) => i < n && Longest(sections[..n], name, i)
  {
    if n == 0 {
    } else {
      BestOfIsLongest(sections, name, n - 1);
      assert sections[..n] == sections[..n - 1] + [sections[n - 1]];
    }
  }

  /** The scan finds the longest section, or there is none. */
  lemma BestIsLongest(sections: seq<string>, name: string)
    ensures
      match Best(sections, name)
      case None => forall j :: 0 <= j < |sections| ==> !Begins(sections[j], name)
      case Some(i) => Longest(sections, name, i)
  {
    BestOfIsLongest(sections, name, |sections|);
    assert sections[..|sections|] == sections;
  }

  lemma LongestUnique(sections: seq<string>, name: string, i: int)
    requires Longest(sections, name, i)
    ensures Best(sections, name) == Some(i)
  {
    BestIsLongest(sections, name);
  }

  // -------------------------------------------------------------------- look-up

  /** The first tag of [lo, hi) with that name, or hi. */
  function FirstNamed(tagName: int -> string, lo: int, hi: int, name: string): int
    decreases hi - lo
  {
    if lo >= hi || tagName(lo) == name then lo else FirstNamed(tagName, lo + 1, hi, name)
  }

  function InSection(b: BuiltIn, d: Option<Descriptor>, i: nat, rest: string): Result<int> {
    if i < |b.sections| && i < |b.bounds| then
      var (lo, hi) := b.bounds[i];
      var t := FirstNamed(b.tagName, lo, hi, rest);
      if t == hi then Err(NAME_NOT_FOUND) else Ok(t)
    else if d.Some? && 0 <= i - |b.sections| < |d.value.sections| then
      match LookupTag(d.value, rest, d.value.sections[i - |b.sections|])
      case Ok(t) => Ok(t)
      case Err(_) => Err(NAME_NOT_FOUND)
    else Ok(0)
  }

  function TagFromName(b: BuiltIn, d: Option<Descriptor>, name: string): Result<int> {
    var sections := AllSections(b, d);
    match Best(sections, name)
    case None => Err(NAME_NOT_FOUND)
    case Some(i) =>
      if i >= |sections| || |sections[i]| + 1 >= |name| then Err(BAD_VALUE)
      else InSection(b, d, i, name[|sections[i]| + 1..])
  }

  lemma {:induction false} FirstNamedFacts(tagName: int -> string, lo: int, hi: int, name: string)
    requires lo <= hi
    ensures
      var t := FirstNamed(tagName, lo, hi, name);
      && lo <= t <= hi
      && (t < hi ==> tagName(t) == name)
      && forall u :: lo <= u < t ==> tagName(u) != name
    decreases hi - lo
  {
    if lo < hi && tagName(lo) != name { FirstNamedFacts(tagName, lo + 1, hi, name); }
  }

  // ----------------------------------------------------------------- round trip

  /** A full name: section, any one separator, tag name. */
  function Full(section: string, separator: char, name: string): string { section + [separator] + name }

  /** Nothing beats section `i` on that name: no longer section begins it, no earlier one has the same name. */
  ghost predicate Unrivalled(sections: seq<string>, name: string, i: int) {
    && 0 <= i < |sections|
    && (forall j :: 0 <= j < |sections| && Begins(sections[j], name) ==> |sections[j]| <= |sections[i]|)
    && forall j :: 0 <= j < i ==> sections[j] != sections[i]
  }

  lemma UnrivalledIsLongest(sections: seq<string>, name: string, i: int)
    requires 0 <= i < |sections| && Begins(sections[i], name)
    ensures Unrivalled(sections, name, i) <==> Best(sections, name) == Some(i)
  {
    BestIsLongest(sections, name);
    if Unrivalled(sections, name, i) {
      forall j | 0 <= j < |sections| && Begins(sections[j], name)
        ensures |sections[j]| < |sections[i]| || (|sections[j]| == |sections[i]| && i <= j)
      {
        if |sections[j]| == |sections[i]| { assert sections[j] == sections[i]; }
      }
      LongestUnique(sections, name, i);
    }
  }

  lemma FullSplits(section: string, separator: char, name: string)
    ensures Begins(section, Full(section, separator, name))
    ensures |Full(section, separator, name)| == |section| + 1 + |name|
    ensures Full(section, separator, name)[|section| + 1..] == name
  {
  }

  /** A result is a tag of the section that was chosen. */
  lemma BuiltInResult(b: BuiltIn, d: Option<Descriptor>, i: nat, rest: string)
    requires TablesOk(b) && i < |b.sections|
    ensures
      match InSection(b, d, i, rest)
      case Ok(t) => b.bounds[i].0 <= t < b.bounds[i].1 && b.tagName(t) == rest
                    && forall u :: b.bounds[i].0 <= u < t ==> b.tagName(u) != rest
      case Err(e) => e == NAME_NOT_FOUND && forall u :: b.bounds[i].0 <= u < b.bounds[i].1 ==> b.tagName(u) != rest
  {
    FirstNamedFacts(b.tagName, b.bounds[i].0, b.bounds[i].1, rest);
  }

  lemma VendorResult(b: BuiltIn, o: Ops, i: nat, rest: string)
    requires TablesOk(b) && OpsOk(o) && |b.sections| <= i < |AllSections(b, Some(Build(o)))|
    ensures
      match InSection(b, Some(Build(o)), i, rest)
      case Ok(t) => t in o.tags && NameOf(o, t) == rest && SectionOf(o, t) == AllSections(b, Some(Build(o)))[i]
      case Err(e) => e == NAME_NOT_FOUND
  {
    hide Build;
    LookupSound(o, rest, Build(o).sections[i - |b.sections|]);
  }

  /** First of its name in its section. */
  ghost predicate FirstOfName(b: BuiltIn, i: nat, t: int)
    requires i < |b.bounds|
  {
    forall u :: b.bounds[i].0 <= u < t ==> b.tagName(u) != b.tagName(t)
  }

  /**
    The full name of a built-in tag leads back to that tag exactly when its name is not empty,
    nothing beats its section, and it is the first of its name there; whatever the separator.
  */
  lemma BuiltInRoundTrip(b: BuiltIn, o: Option<Ops>, i: nat, t: int, separator: char)
    requires TablesOk(b) && (o.Some? ==> OpsOk(o.value))
    requires i < |b.sections| && b.bounds[i].0 <= t < b.bounds[i].1
    ensures
      var d := if o.None? then None else Some(Build(o.value));
      var name := Full(b.sections[i], separator, b.tagName(t));
      TagFromName(b, d, name) == Ok(t)
      <==> b.tagName(t) != "" && Unrivalled(AllSections(b, d), name, i) && FirstOfName(b, i, t)
  {
    hide Build;
    var d := if o.None? then None else Some(Build(o.value));
    var name := Full(b.sections[i], separator, b.tagName(t));
    var sections := AllSections(b, d);
    FullSplits(b.sections[i], separator, b.tagName(t));
    UnrivalledIsLongest(sections, name, i);
    BestIsLongest(sections, name);
    var best := Best(sections, name).value;
    BuiltInResult(b, d, i, b.tagName(t));
    if best != i && |sections[best]| + 1 < |name| {
      var rest := name[|sections[best]| + 1..];
      if best < |b.sections| { BuiltInResult(b, d, best, rest); } else { VendorResult(b, o.value, best, rest); }
    }
  }

  lemma VendorSectionsDistinct(o: Ops, i: nat, j: nat)
    ensures
      var sections := Build(o).sections;
      i < |sections| && j < |sections| && sections[i] == sections[j] ==> i == j
  {
    SectionsFacts(SectionList(o));
    OrdersTotal();
  }

  /** The same for a vendor tag, for which the last of its name in its section is found. */
  lemma VendorRoundTrip(b: BuiltIn, o: Ops, t: int, separator: char)
    requires TablesOk(b) && OpsOk(o) && t in o.tags
    ensures
      var name := Full(SectionOf(o, t), separator, NameOf(o, t));
      TagFromName(b, Some(Build(o)), name) == Ok(t)
      <==> && NameOf(o, t) != ""
           && SectionOf(o, t) !in b.sections
           && (forall s :: s in AllSections(b, Some(Build(o))) && Begins(s, name) ==> |s| <= |SectionOf(o, t)|)
           && LookupTag(Build(o), NameOf(o, t), SectionOf(o, t)) == Ok(t)
  {
    hide Build;
    var d := Some(Build(o));
    var section, sections := SectionOf(o, t), AllSections(b, d);
    var name := Full(section, separator, NameOf(o, t));
    var i := VendorSectionAt(b, o, t);
    FullSplits(section, separator, NameOf(o, t));
    UnrivalledIsLongest(sections, name, i);
    VendorUnrivalled(b, o, name, i);
    BestIsLongest(sections, name);
    var best := Best(sections, name).value;
    if best != i && |sections[best]| + 1 < |name| {
      var rest := name[|sections[best]| + 1..];
      if best < |b.sections| {
        BuiltInResult(b, d, best, rest);
      } else {
        VendorResult(b, o, best, rest);
        if InSection(b, d, best, rest) == Ok(t) { VendorIndexUnique(b, o, i, best); }
      }
    }
  }

  lemma VendorIndexUnique(b: BuiltIn, o: Ops, i: nat, j: nat)
    requires |b.sections| <= i && |b.sections| <= j
    ensures
      var sections := AllSections(b, Some(Build(o)));
      i < |sections| && j < |sections| && sections[i] == sections[j] ==> i == j
  {
    hide Build;
    VendorSectionsDistinct(o, i - |b.sections|, j - |b.sections|);
  }

  lemma VendorSectionAt(b: BuiltIn, o: Ops, t: int) returns (i: nat)
    requires OpsOk(o) && t in o.tags
    ensures |b.sections| <= i < |AllSections(b, Some(Build(o)))| && AllSections(b, Some(Build(o)))[i] == SectionOf(o, t)
  {
    OwnSection(o, t);
    i := |b.sections| + Index(Build(o).sections, SectionOf(o, t));
  }

  lemma VendorUnrivalled(b: BuiltIn, o: Ops, name: string, i: nat)
    requires |b.sections| <= i < |AllSections(b, Some(Build(o)))|
    ensures
      var sections := AllSections(b, Some(Build(o)));
      Unrivalled(sections, name, i)
      <==> sections[i] !in b.sections && forall s :: s in sections && Begins(s, name) ==> |s| <= |sections[i]|
  {
    hide Build;
    var sections := AllSections(b, Some(Build(o)));
    forall j | |b.sections| <= j < i ensures sections[j] != sections[i] {
      if sections[j] == sections[i] { VendorIndexUnique(b, o, j, i); }
    }
    assert forall j :: 0 <= j < |b.sections| ==> sections[j] == b.sections[j];
  }

  /** With unique pairs among the vendor tags the last condition is met. */
  lemma VendorRoundTripUnique(b: BuiltIn, o: Ops, t: int, separator: char)
    requires TablesOk(b) && OpsOk(o) && UniquePairs(o) && t in o.tags
    ensures
      var name := Full(SectionOf(o, t), separator, NameOf(o, t));
      TagFromName(b, Some(Build(o)), name) == Ok(t)
      <==> && NameOf(o, t) != ""
           && SectionOf(o, t) !in b.sections
           && (forall s :: s in AllSections(b, Some(Build(o))) && Begins(s, name) ==> |s| <= |SectionOf(o, t)|)
  {
    hide Build, TagFromName;
    LookupInverse(o);
    VendorRoundTrip(b, o, t, separator);
  }

  // ------------------------------------------------------------------ the loops

  /** The first loop: the best match so far, by its name, index and length. */
  method FindSection(sections: seq<string>, name: string) returns (best: Option<nat>)
    ensures best == Best(sections, name)
    ensures best.Some? ==> Longest(sections, name, best.value)
    ensures best.None? ==> forall j :: 0 <= j < |sections| ==> !Begins(sections[j], name)
  {
    BestIsLongest(sections, name);
    best := None;
    var length := 0;
    for i := 0 to |sections|
      invariant best == BestOf(sections, name, i)
      invariant best.Some? ==> best.value < |sections| && length == |sections[best.value]|
    {
      if Begins(sections[i], name) && (best.None? || length < |sections[i]|) {
        best, length := Some(i), |sections[i]|;
      }
    }
  }

  method GetTagFromName(b: BuiltIn, d: Option<Descriptor>, name: string) returns (r: Result<int>)
    requires TablesOk(b)
    ensures r == TagFromName(b, d, name)
  {
    var sections := AllSections(b, d);
    var best := FindSection(sections, name);
    if best.None? { return Err(NAME_NOT_FOUND); }
    var length := |sections[best.value]|;
    if length + 1 >= |name| { return Err(BAD_VALUE); }
    var rest := name[length + 1..];
    if best.value < |b.sections| {
      var (lo, hi) := b.bounds[best.value];
      var candidate := lo;
      while candidate < hi && b.tagName(candidate) != rest
        invariant lo <= candidate <= hi
        invariant FirstNamed(b.tagName, lo, hi, rest) == FirstNamed(b.tagName, candidate, hi, rest)
      {
        candidate := candidate + 1;
      }
      r := if candidate == hi then Err(NAME_NOT_FOUND) else Ok(candidate);
    } else {
      r := LookupTag(d.value, rest, sections[best.value]);
      if r.Err? { r := Err(NAME_NOT_FOUND); }
    }
  }
}
