/**
  `CameraMetadata` of camera/CameraMetadata.cpp: a buffer of entries that it owns, the lock
  that freezes it, growth on demand, and the removal of the entries that need permission.

  The C functions on `camera_metadata_t` are not part of the repository.  A buffer is a map
  from tags to entries with a capacity; an entry carries its values as 32-bit patterns and
  the room it takes in the data section; a change that does not fit fails, and so does a
  search where there is no buffer.  An allocation that succeeds is given by the address it
  returns.  The available-keys tag is known, with 32-bit integer values.
*/
module CameraMetadataModel {
  import opened Basics
  import opened KeyDifference
  import VendorTags

  const OK := 0
  const NO_MEMORY := -12
  const BAD_VALUE := -22
  const INVALID_OPERATION := -38
  const ERROR := 1

  datatype Entry = Entry(data: seq<int>, size: nat)

  datatype Buffer = Buffer(address: int, entries: map<int, Entry>, dataCount: int, entryCap: nat, dataCap: nat)

  ghost predicate Fits(b: Buffer) { |b.entries| <= b.entryCap && b.dataCount <= b.dataCap }

  function Entries(b: Option<Buffer>): map<int, Entry> { if b.None? then map[] else b.value.entries }

  // -------------------------------------------------------------------- growing

  /** `resizeIfNeeded`; `room` is the address of a successful allocation. */
  function Resize(b: Option<Buffer>, extraEntries: nat, extraData: nat, room: Option<int>): (Option<Buffer>, int) {
    if b.None? then
      if room.None? then (None, NO_MEMORY)
      else (Some(Buffer(room.value, map[], 0, extraEntries * 2, extraData * 2)), OK)
    else
      var count, data := |b.value.entries| + extraEntries, b.value.dataCount + extraData;
      if count <= b.value.entryCap && data <= b.value.dataCap then (b, OK)
      else if room.None? then (b, NO_MEMORY)
      else (Some(b.value.(
        address := room.value,
        entryCap := if count > b.value.entryCap then count * 2 else b.value.entryCap,
        dataCap := if data > b.value.dataCap then data * 2 else b.value.dataCap)), OK)
  }

  /** There is room for that much more. */
  predicate Room(b: Option<Buffer>, extraEntries: nat, extraData: nat) {
    && b.Some?
    && |b.value.entries| + extraEntries <= b.value.entryCap
    && b.value.dataCount + extraData <= b.value.dataCap
  }

  /**
    Growing keeps every entry and never shrinks; it succeeds exactly when there is room already
    or the allocation succeeds, then leaves the room asked for, and otherwise changes nothing.
  */
  lemma ResizeMakesRoom(b: Option<Buffer>, extraEntries: nat, extraData: nat, room: Option<int>)
    requires b.Some? ==> Fits(b.value)
    ensures
      var (r, status) := Resize(b, extraEntries, extraData, room);
      && (status == OK <==> Room(b, extraEntries, extraData) || room.Some?)
      && (status == OK ==> Room(r, extraEntries, extraData) && Fits(r.value))
      && (status != OK ==> status == NO_MEMORY && r == b)
      && Entries(r) == Entries(b)
      && (b.Some? ==> r.Some? && r.value.dataCount == b.value.dataCount)
      && (b.Some? ==> b.value.entryCap <= r.value.entryCap && b.value.dataCap <= r.value.dataCap)
      && (Room(b, extraEntries, extraData) ==> r == b)
  {
  }

  function EntrySize(b: Buffer, tag: int): nat { if tag in b.entries then b.entries[tag].size else 0 }

  /** Adding an entry, or updating the one there is. */
  function Put(b: Buffer, tag: int, e: Entry): (Buffer, int) {
    var data := b.dataCount - EntrySize(b, tag) + e.size;
    if data > b.dataCap || (tag !in b.entries && |b.entries| == b.entryCap) then (b, ERROR)
    else (b.(entries := b.entries[tag := e], dataCount := data), OK)
  }

  /** What an update looks at besides its data: the tag has a type; the data lies inside the buffer itself. */
  datatype Source = Source(known: bool, inside: bool)

  function Refusal(b: Option<Buffer>, from: Source): int {
    if !from.known then BAD_VALUE else if b.Some? && from.inside then INVALID_OPERATION else OK
  }

  /** `updateImpl` on an unlocked object. */
  function Update(b: Option<Buffer>, tag: int, e: Entry, from: Source, room: Option<int>): (Option<Buffer>, int) {
    if Refusal(b, from) != OK then (b, Refusal(b, from))
    else
      var (b1, status) := Resize(b, 1, e.size, room);
      if status != OK || b1.None? then (b1, status)
      else var (b2, status2) := Put(b1.value, tag, e); (Some(b2), status2)
  }

  lemma PutCount(m: map<int, Entry>, tag: int, e: Entry)
    ensures |m[tag := e]| == |m| + if tag in m then 0 else 1
  {
    if tag in m {
      assert m[tag := e].Keys == m.Keys;
    } else {
      assert m[tag := e].Keys == m.Keys + {tag};
    }
    KeysCount(m);
    KeysCount(m[tag := e]);
  }

  lemma KeysCount(m: map<int, Entry>)
    ensures |m.Keys| == |m|
  {
  }

  /**
    An update of a known tag from data outside the buffer succeeds exactly when it finds room,
    and changes that one entry; otherwise no entry changes, and a refusal changes nothing.
  */
  lemma UpdateSucceeds(b: Option<Buffer>, tag: int, e: Entry, from: Source, room: Option<int>)
    requires b.Some? ==> Fits(b.value)
    ensures
      var (r, status) := Update(b, tag, e, from, room);
      && (status == OK <==> from.known && !(b.Some? && from.inside) && (Room(b, 1, e.size) || room.Some?))
      && (!from.known ==> status == BAD_VALUE && r == b)
      && (from.known && b.Some? && from.inside ==> status == INVALID_OPERATION && r == b)
      && Entries(r) == (if status == OK then Entries(b)[tag := e] else Entries(b))
      && (r.Some? ==> Fits(r.value))
  {
    ResizeMakesRoom(b, 1, e.size, room);
    var (b1, status) := Resize(b, 1, e.size, room);
    if b1.Some? { PutCount(b1.value.entries, tag, e); }
  }

  function EraseEntry(b: Option<Buffer>, tag: int): Option<Buffer> {
    if tag !in Entries(b) then b
    else Some(b.value.(entries := b.value.entries - {tag}, dataCount := b.value.dataCount - b.value.entries[tag].size))
  }

  lemma EraseCount(b: Option<Buffer>, tag: int)
    requires b.Some? ==> Fits(b.value)
    ensures b.Some? ==> EraseEntry(b, tag).Some? && Fits(EraseEntry(b, tag).value)
    ensures Entries(EraseEntry(b, tag)) == Entries(b) - {tag}
  {
    if tag in Entries(b) {
      var m := b.value.entries;
      assert (m - {tag}).Keys == m.Keys - {tag};
      KeysCount(m);
      KeysCount(m - {tag});
    } else {
      assert Entries(b) - {tag} == Entries(b);
    }
  }

  // ------------------------------------------------- removing what needs permission

  /** The vendor tags of the global descriptor, else of the cached one, then the tags needing permission. */
  function TagsToRemove(global: Option<VendorTags.Descriptor>, cached: Option<VendorTags.Descriptor>, permission: seq<int>): seq<int>
  {
    var chosen := if (global.None? || global.value.names == []) && cached.Some? then cached else global;
    (if chosen.None? then [] else VendorTags.Keys(chosen.value.names)) + permission
  }

  /** The listed tags that are there, at their first listing. */
  function Present(m: map<int, Entry>, tags: seq<int>): seq<int> {
    if tags == [] then []
    else
      var front, last := tags[..|tags| - 1], tags[|tags| - 1];
      Present(m, front) + if last in m && last !in front then [last] else []
  }

  function Without(m: map<int, Entry>, tags: seq<int>): map<int, Entry> { map t | t in m && t !in tags :: m[t] }

  ghost predicate NoRepeats(s: seq<int>) { forall i, j :: 0 <= i < j < |s| ==> s[i] != s[j] }

  lemma {:induction false} PresentFacts(m: map<int, Entry>, tags: seq<int>)
    ensures forall t :: t in Present(m, tags) <==> t in tags && t in m
    ensures NoRepeats(Present(m, tags))
  {
    if tags == [] {
    } else {
      var front, last := tags[..|tags| - 1], tags[|tags| - 1];
      PresentFacts(m, front);
      assert tags == front + [last];
    }
  }

  lemma PresentNone(m: map<int, Entry>)
    ensures Present(m, []) == [] && Without(m, []) == m
  {
  }

  lemma {:induction false} PresentStep(m: map<int, Entry>, tags: seq<int>, i: nat)
    requires i < |tags|
    ensures Present(m, tags[..i + 1])
         == Present(m, tags[..i]) + if tags[i] in m && tags[i] !in tags[..i] then [tags[i]] else []
    ensures Without(m, tags[..i + 1]) == Without(m, tags[..i]) - {tags[i]}
    ensures tags[i] in Without(m, tags[..i]) <==> tags[i] in m && tags[i] !in tags[..i]
  {
    assert tags[..i + 1][..i] == tags[..i];
    assert tags[..i + 1] == tags[..i] + [tags[i]];
  }

  /** The entries after a successful removal; the entry of available keys, if still there, is filtered. */
  function Removed(m: map<int, Entry>, tags: seq<int>, keysTag: int, size: nat): map<int, Entry> {
    var rest := Without(m, tags);
    if keysTag in rest then rest[keysTag := Entry(Filter(rest[keysTag].data, Present(m, tags)), size)] else rest
  }

  /** The keys entry lists no removed tag, and exactly the other keys it listed before. */
  ghost predicate KeysFollow(before: seq<int>, removed: seq<int>, after: seq<int>) {
    && Ascending(after)
    && NoRepeats(after)
    && forall x :: x in after <==> x in before && x !in removed
  }

  lemma {:induction false} NoRepeatsTimes(s: seq<int>, x: int)
    requires NoRepeats(s)
    ensures Times(s, x) == if x in s then 1 else 0
  {
    if s == [] {
    } else {
      NoRepeatsTimes(s[..|s| - 1], x);
      assert s == s[..|s| - 1] + [s[|s| - 1]];
    }
  }

  lemma {:induction false} TwiceTimes(s: seq<int>, i: nat, j: nat)
    requires i < j < |s| && s[i] == s[j]
    ensures Times(s, s[i]) >= 2
  {
    TimesRemove(s, j, s[i]);
    var t := s[..j] + s[j + 1..];
    TimesMember(t, s[i]);
    assert t[i] == s[i];
  }

  lemma {:induction false} TimesNoRepeats(s: seq<int>)
    requires forall x :: Times(s, x) <= 1
    ensures NoRepeats(s)
  {
    forall i, j | 0 <= i < j < |s| ensures s[i] != s[j] {
      if s[i] == s[j] { TwiceTimes(s, i, j); }
    }
  }

  /** On lists without repeats, subtracting occurrences is set difference. */
  lemma SubtractsIsDifference(before: seq<int>, removed: seq<int>, after: seq<int>)
    requires NoRepeats(before) && NoRepeats(removed) && Ascending(after)
    ensures Subtracts(before, removed, after) <==> KeysFollow(before, removed, after)
  {
    forall x
      ensures Times(before, x) == if x in before then 1 else 0
      ensures Times(removed, x) == if x in removed then 1 else 0
      ensures x in after <==> Times(after, x) > 0
    {
      NoRepeatsTimes(before, x);
      NoRepeatsTimes(removed, x);
      TimesMember(after, x);
    }
    if Subtracts(before, removed, after) { TimesNoRepeats(after); }
    if KeysFollow(before, removed, after) {
      forall x ensures Times(after, x) == Minus(Times(before, x), Times(removed, x)) { NoRepeatsTimes(after, x); }
    }
  }

  /** No vendor tag is removed, or no built-in tag that is removed is listed as available. */
  predicate Unmixed(m: map<int, Entry>, tags: seq<int>, keys: seq<int>) {
    (forall t :: t in m && t in tags ==> t < HALF) || forall t :: t in m && t in tags && t < HALF ==> t !in keys
  }

  /**
    What `removePermissionEntries` achieves on any metadata: the listed tags are gone, every
    other entry but the available keys is untouched, and the available keys become the sorted
    old keys without the removed tags exactly when the removal is unmixed.
  */
  lemma {:induction false} RemovalExactlyWhen(m: map<int, Entry>, tags: seq<int>, keysTag: int, size: nat)
    requires Patterns(tags)
    requires keysTag in m ==> Patterns(m[keysTag].data) && NoRepeats(m[keysTag].data)
    ensures
      var r, gone := Removed(m, tags, keysTag, size), Present(m, tags);
      && (forall t :: t in r <==> t in m && t !in tags)
      && (forall t :: t in r && t != keysTag ==> r[t] == m[t])
      && (forall t :: t in gone <==> t in tags && t in m)
      && NoRepeats(gone)
      && (keysTag in r ==> (KeysFollow(m[keysTag].data, gone, r[keysTag].data) <==> Unmixed(m, tags, m[keysTag].data)))
  {
    hide Filter, Present, Unmixed, Subtracts, OneOrderSuffices, KeysFollow;
    var r, gone := Removed(m, tags, keysTag, size), Present(m, tags);
    PresentFacts(m, tags);
    if keysTag in r {
      var keys := m[keysTag].data;
      PresentPatterns(m, tags);
      FilterExactlyWhen(keys, gone);
      FilterLeaves(keys, gone, 0);
      SubtractsIsDifference(keys, gone, Filter(keys, gone));
      UnmixedMeans(m, tags, keys);
    }
  }

  lemma {:induction false} PresentPatterns(m: map<int, Entry>, tags: seq<int>)
    requires Patterns(tags)
    ensures Patterns(Present(m, tags))
  {
    var gone := Present(m, tags);
    PresentFacts(m, tags);
    forall i | 0 <= i < |gone| ensures 0 <= gone[i] < 0x1_0000_0000 {
      var x := gone[i];
      assert x in tags;
    }
  }

  lemma {:induction false} UnmixedMeans(m: map<int, Entry>, tags: seq<int>, keys: seq<int>)
    ensures OneOrderSuffices(keys, Present(m, tags)) <==> Unmixed(m, tags, keys)
  {
    var gone := Present(m, tags);
    PresentFacts(m, tags);
    assert AnyVendor(gone) <==> exists t :: t in m && t in tags && HALF <= t by {
      if AnyVendor(gone) { var i :| 0 <= i < |gone| && HALF <= gone[i]; var t := gone[i]; assert t in tags && t in m; }
      if t :| t in m && t in tags && HALF <= t { assert t in gone; var i :| 0 <= i < |gone| && gone[i] == t; }
    }
    assert (forall i :: 0 <= i < |gone| && gone[i] < HALF ==> gone[i] !in keys)
      <==> (forall t :: t in m && t in tags && t < HALF ==> t !in keys) by {
      if t :| t in m && t in tags && t < HALF && t in keys { assert t in gone; var i :| 0 <= i < |gone| && gone[i] == t; }
      if i :| 0 <= i < |gone| && gone[i] < HALF && gone[i] in keys { var t := gone[i]; assert t in tags && t in m; }
    }
  }

  lemma SortNone()
    ensures SortBy(Signed, []) == []
  {
  }

  // ------------------------------------------------------------------ the object

  class CameraMetadata {
    var buffer: Option<Buffer>
    var locked: bool

    ghost predicate Valid() reads this { buffer.Some? ==> Fits(buffer.value) }

    constructor ()
      ensures Valid() && buffer == None && !locked
    {
      buffer, locked := None, false;
    }

    method GetAndLock() returns (address: Option<int>)
      modifies `locked
      ensures locked && address == if buffer.None? then None else Some(buffer.value.address)
    {
      locked := true;
      address := if buffer.None? then None else Some(buffer.value.address);
    }

    /** Only the pointer that `GetAndLock` gave out opens the lock. */
    method Unlock(address: Option<int>) returns (status: int)
      modifies `locked
      ensures status == OK <==> old(locked) && address == if buffer.None? then None else Some(buffer.value.address)
      ensures locked == (old(locked) && status != OK)
      ensures status == INVALID_OPERATION <==> !old(locked)
    {
      if !locked { return INVALID_OPERATION; }
      if address != (if buffer.None? then None else Some(buffer.value.address)) { return BAD_VALUE; }
      locked := false;
      status := OK;
    }

    method Release() returns (released: Option<Buffer>)
      requires Valid()
      modifies `buffer
      ensures Valid()
      ensures old(locked) ==> released == None && buffer == old(buffer)
      ensures !old(locked) ==> released == old(buffer) && buffer == None
    {
      if locked { return None; }
      released := buffer;
      buffer := None;
    }

    method Clear() returns (freed: Option<Buffer>)
      requires Valid()
      modifies `buffer
      ensures Valid()
      ensures old(locked) ==> freed == None && buffer == old(buffer)
      ensures !old(locked) ==> freed == old(buffer) && buffer == None
    {
      if locked { return None; }
      freed := buffer;
      buffer := None;
    }

    /** Taking over a buffer frees the one held before; a locked object takes nothing. */
    method Acquire(other: Option<Buffer>) returns (freed: Option<Buffer>)
      requires Valid() && (other.Some? ==> Fits(other.value))
      modifies `buffer
      ensures Valid()
      ensures old(locked) ==> freed == None && buffer == old(buffer)
      ensures !old(locked) ==> freed == old(buffer) && buffer == other
    {
      if locked { return None; }
      freed := Clear();
      buffer := other;
    }

    method ResizeIfNeeded(extraEntries: nat, extraData: nat, room: Option<int>) returns (status: int)
      requires Valid()
      modifies `buffer
      ensures Valid()
      ensures (buffer, status) == Resize(old(buffer), extraEntries, extraData, room)
      ensures Entries(buffer) == Entries(old(buffer))
    {
      ResizeMakesRoom(buffer, extraEntries, extraData, room);
      if buffer.None? {
        if room.None? { return NO_MEMORY; }
        buffer := Some(Buffer(room.value, map[], 0, extraEntries * 2, extraData * 2));
      } else {
        var b := buffer.value;
        var newEntryCount := |b.entries| + extraEntries;
        newEntryCount := if newEntryCount > b.entryCap then newEntryCount * 2 else b.entryCap;
        var newDataCount := b.dataCount + extraData;
        newDataCount := if newDataCount > b.dataCap then newDataCount * 2 else b.dataCap;
        if newEntryCount > b.entryCap || newDataCount > b.dataCap {
          if room.None? { return NO_MEMORY; }
          buffer := Some(Buffer(room.value, b.entries, b.dataCount, newEntryCount, newDataCount));
        }
      }
      status := OK;
    }

    method UpdateEntry(tag: int, e: Entry, from: Source, room: Option<int>) returns (status: int)
      requires Valid()
      modifies `buffer
      ensures Valid()
      ensures old(locked) ==> status == INVALID_OPERATION && buffer == old(buffer)
      ensures !old(locked) ==> (buffer, status) == Update(old(buffer), tag, e, from, room)
      ensures !old(locked) && room.Some? && from == Source(true, false) ==> status == OK
      ensures Entries(buffer) == if status == OK then Entries(old(buffer))[tag := e] else Entries(old(buffer))
    {
      if locked { return INVALID_OPERATION; }
      UpdateSucceeds(buffer, tag, e, from, room);
      if !from.known { return BAD_VALUE; }
      if buffer.Some? && from.inside { return INVALID_OPERATION; }
      ResizeMakesRoom(buffer, 1, e.size, room);
      status := ResizeIfNeeded(1, e.size, room);
      if status == OK {
        var (b, s) := Put(buffer.value, tag, e);
        buffer, status := Some(b), s;
      }
    }

    method Erase(tag: int) returns (status: int)
      requires Valid()
      modifies `buffer
      ensures Valid() && (buffer.Some? <==> old(buffer).Some?)
      ensures old(locked) ==> status == INVALID_OPERATION && buffer == old(buffer)
      ensures !old(locked) ==> status == (if old(buffer).None? then ERROR else OK)
      ensures !old(locked) ==> Entries(buffer) == Entries(old(buffer)) - {tag}
    {
      if locked { return INVALID_OPERATION; }
      if buffer.None? { return ERROR; }
      EraseCount(buffer, tag);
      buffer := EraseEntry(buffer, tag);
      status := OK;
    }

    /** The loop that erases the listed tags and notes the ones that were there. */
    method EraseListed(tags: seq<int>, noted: seq<int>) returns (status: int, removed: seq<int>)
      requires Valid()
      modifies `buffer
      ensures Valid()
      ensures !locked ==> status == OK
      ensures !locked ==> removed == noted + Present(Entries(old(buffer)), tags)
      ensures !locked ==> Entries(buffer) == Without(Entries(old(buffer)), tags)
      ensures locked ==> buffer == old(buffer) && removed == noted
      ensures locked ==> status == if Present(Entries(buffer), tags) == [] then OK else INVALID_OPERATION
    {
      hide Fits, Present;
      removed := noted;
      ghost var m := Entries(buffer);
      PresentNone(m);
      PresentFacts(m, tags);
      var i := 0;
      while i < |tags|
        invariant 0 <= i <= |tags| && Valid()
        invariant locked ==> buffer == old(buffer)
        invariant removed == noted + Present(m, tags[..i])
        invariant locked ==> Present(m, tags[..i]) == []
        invariant Entries(buffer) == Without(m, tags[..i])
      {
        PresentStep(m, tags, i);
        if tags[i] in Entries(buffer) {
          status := Erase(tags[i]);
          if status != OK {
            assert tags[i] in Present(m, tags);
            return;
          }
          removed := removed + [tags[i]];
        }
        i := i + 1;
      }
      assert tags[..|tags|] == tags;
      status := OK;
    }

    /** The update of the available keys at the end, which sorts the removed tags; its own failure is not reported. */
    method FilterKeys(keysTag: int, removed: seq<int>, size: nat, room: Option<int>) returns (sorted: seq<int>)
      requires Valid()
      modifies `buffer
      ensures Valid()
      ensures sorted == if keysTag in Entries(old(buffer)) then SortBy(Signed, removed) else removed
      ensures locked || keysTag !in Entries(old(buffer)) ==> buffer == old(buffer)
      ensures !locked && keysTag in Entries(old(buffer)) ==>
        || Entries(buffer) == Entries(old(buffer))[keysTag := Entry(Filter(Entries(old(buffer))[keysTag].data, removed), size)]
        || (room.None? && Entries(buffer) == Entries(old(buffer)))
    {
      sorted := removed;
      if keysTag in Entries(buffer) {
        sorted := SortBy(Signed, sorted);
        var keys := if locked then [] else Entries(buffer)[keysTag].data;
        var newKeys := Difference(SortBy(Unsigned, keys), sorted);
        var status := UpdateEntry(keysTag, Entry(newKeys, size), Source(true, false), room);
      }
    }

    /** From an empty `tagsRemoved`; `size` is the data room of the new keys, `room` a possible allocation. */
    method RemovePermissionEntries(global: Option<VendorTags.Descriptor>, cached: Option<VendorTags.Descriptor>,
                                   permission: seq<int>, keysTag: int, size: nat, room: Option<int>)
      returns (status: int, removed: seq<int>)
      requires Valid()
      modifies `buffer
      ensures Valid()
      ensures locked ==> buffer == old(buffer) && removed == []
      ensures locked ==> (status == OK <==> Present(Entries(buffer), TagsToRemove(global, cached, permission)) == [])
      ensures !locked ==> status == OK
      ensures
        var m, tags := Entries(old(buffer)), TagsToRemove(global, cached, permission);
        !locked ==> removed == if keysTag in Without(m, tags) then SortBy(Signed, Present(m, tags)) else Present(m, tags)
      ensures
        var after := Removed(Entries(old(buffer)), TagsToRemove(global, cached, permission), keysTag, size);
        !locked && room.Some? ==> Entries(buffer) == after
      ensures
        var tags := TagsToRemove(global, cached, permission);
        var after := Removed(Entries(old(buffer)), tags, keysTag, size);
        !locked && room.None? ==> Entries(buffer) == after || Entries(buffer) == Without(Entries(old(buffer)), tags)
    {
      hide Filter, TagsToRemove;
      var tags := TagsToRemove(global, cached, permission);
      ghost var gone := Present(Entries(buffer), tags);
      status, removed := EraseListed(tags, []);
      assert !locked ==> removed == gone;
      if status == OK {
        SortNone();
        removed := FilterKeys(keysTag, removed, size, room);
      }
    }
  }
}
