/**
  The parcel form of camera metadata (camera/CameraMetadata.cpp:29-30, 543-727): the size of
  a blob, the blob, and the offset of the metadata in it.  The writer aligns the metadata in
  memory it does not choose; the reader finds the blob at another address.

  Addresses are unsigned words of `w` bits with wrap-around; the bitwise operators are
  written out on the bits.  `memory` is what the blob held before.

  A parcel is a sequence of typed items, as far as the two sides here use it: reading past
  its end, an item of another type, or a blob of another length than the one written, fails
  with NOT_ENOUGH_DATA.
*/
module MetadataBlob {
  import opened Basics

  const OK := 0
  const BAD_VALUE := -22
  const NOT_ENOUGH_DATA := -61

  // ------------------------------------------------------------------ alignment

  function Pow2(k: nat): positive { if k == 0 then 1 else 2 * Pow2(k - 1) }

  /** Bitwise and. */
  function And(x: nat, y: nat): nat {
    if x == 0 || y == 0 then 0 else 2 * And(x / 2, y / 2) + if x % 2 == 1 && y % 2 == 1 then 1 else 0
  }

  /** Bitwise complement in a word of `w` bits. */
  function Complement(w: nat, x: nat): int { Pow2(w) - 1 - x }

  /** A sum or difference of two words, brought back into a word. */
  function Word(w: nat, x: int): int {
    if x >= Pow2(w) then x - Pow2(w) else if x < 0 then x + Pow2(w) else x
  }

  /** `ALIGN_TO`. */
  function AlignTo(w: nat, address: nat, alignment: positive): nat
    requires address < Pow2(w) && alignment <= Pow2(w)
  {
    And(Word(w, address + (alignment - 1)), Complement(w, alignment - 1))
  }

  function Offset(w: nat, address: nat, alignment: positive): int
    requires address < Pow2(w) && alignment <= Pow2(w)
  {
    Word(w, AlignTo(w, address, alignment) - address)
  }

  /** The low `k` bits of a word, and the rest. */
  function Low(x: nat, k: nat): nat { if k == 0 then 0 else x % 2 + 2 * Low(x / 2, k - 1) }

  function High(x: nat, k: nat): nat { if k == 0 then x else High(x / 2, k - 1) }

  lemma {:induction false} Split(x: nat, k: nat)
    ensures x == High(x, k) * Pow2(k) + Low(x, k)
    ensures Low(x, k) < Pow2(k)
  {
    if k == 0 {
    } else {
      Split(x / 2, k - 1);
      SplitStep(x, High(x / 2, k - 1), Pow2(k - 1), Low(x / 2, k - 1));
    }
  }

  lemma SplitStep(x: nat, h: nat, p: nat, l: nat)
    requires x / 2 == h * p + l && l < p
    ensures x == h * (2 * p) + (x % 2 + 2 * l) && x % 2 + 2 * l < 2 * p
  {
    assert h * (2 * p) == 2 * (h * p);
  }

  lemma {:induction false} Pow2Order(k: nat, n: nat)
    requires k <= n
    ensures Pow2(k) <= Pow2(n)
  {
    if k < n { Pow2Order(k, n - 1); }
  }

  lemma {:induction false} AndOnes(x: nat, n: nat)
    requires x < Pow2(n)
    ensures And(x, Pow2(n) - 1) == x
  {
    if n == 0 {
    } else {
      assert (Pow2(n) - 1) / 2 == Pow2(n - 1) - 1;
      AndOnes(x / 2, n - 1);
    }
  }

  /** The mask with ones from bit `k` to bit `n` clears the low `k` bits. */
  lemma {:induction false} AndMask(x: nat, n: nat, k: nat)
    requires k <= n && x < Pow2(n)
    ensures Pow2(k) <= Pow2(n) && And(x, Pow2(n) - Pow2(k)) == x - Low(x, k)
  {
    hide And;
    Pow2Order(k, n);
    if k == 0 {
      AndOnes(x, n);
    } else {
      Pow2Order(k - 1, n - 1);
      AndMask(x / 2, n - 1, k - 1);
      AndEven(x, Pow2(n - 1) - Pow2(k - 1));
      assert 2 * (x / 2) + x % 2 == x;
    }
  }

  lemma {:induction false} AndEven(x: nat, y: nat)
    ensures And(x, 2 * y) == 2 * And(x / 2, y)
  {
    assert (2 * y) / 2 == y && (2 * y) % 2 == 0;
  }

  /**
    For every address and every power of two: the aligned start is a multiple of the alignment,
    less than one alignment above the address, even where the address space wraps around.
  */
  lemma {:induction false} Aligned(w: nat, k: nat, address: nat)
    requires k <= w && address < Pow2(w)
    ensures Pow2(k) <= Pow2(w)
    ensures 0 <= Offset(w, address, Pow2(k)) < Pow2(k)
    ensures AlignTo(w, address, Pow2(k)) == Word(w, address + Offset(w, address, Pow2(k)))
    ensures exists q: nat :: AlignTo(w, address, Pow2(k)) == q * Pow2(k)
  {
    Pow2Order(k, w);
    var x := Word(w, address + (Pow2(k) - 1));
    AndMask(x, w, k);
    Split(x, k);
    assert AlignTo(w, address, Pow2(k)) == High(x, k) * Pow2(k);
  }

  /** Where the blob does not wrap around, the aligned metadata lies inside it. */
  lemma {:induction false} AlignedInside(w: nat, k: nat, address: nat, size: nat)
    requires k <= w && address < Pow2(w) && address + size + Pow2(k) <= Pow2(w)
    ensures Pow2(k) <= Pow2(w)
    ensures
      var start := AlignTo(w, address, Pow2(k));
      && start == address + Offset(w, address, Pow2(k))
      && address <= start
      && start + size < address + (size + Pow2(k))
  {
    Aligned(w, k, address);
  }

  // -------------------------------------------------------------------- parcels

  datatype Item = I32(value: int) | Blob(bytes: seq<byte>)

  datatype Result<+T> = Ok(value: T) | Err(code: int)

  /** `static_cast<int32_t>` of a size, and `static_cast<size_t>` of an int32. */
  function ToInt32(x: nat): int {
    var low := x % 0x1_0000_0000;
    if low < 0x8000_0000 then low else low - 0x1_0000_0000
  }

  function ToSize(x: int): int { if x < 0 then x + 0x1_0000_0000_0000_0000 else x }

  /** Memory after `bytes` have been copied to `at`. */
  function Filled(memory: seq<byte>, at: nat, bytes: seq<byte>): (r: seq<byte>)
    requires at + |bytes| <= |memory|
    ensures |r| == |memory| && r[at..at + |bytes|] == bytes
  {
    memory[..at] + bytes + memory[at + |bytes|..]
  }

  /** Where `writeBlob` puts the blob; None when it fails. */
  datatype Place = Place(address: nat, memory: seq<byte>)

  ghost predicate Placed(k: nat, bytes: seq<byte>, place: Place) {
    && |place.memory| == |bytes| + Pow2(k)
    && place.address < Pow2(64)
  }

  /** `writeToParcel`; a failing `writeBlob` leaves offset 0 behind the size, and no blob. */
  function Write(k: nat, metadata: Option<seq<byte>>, place: Option<Place>): (r: seq<Item>)
    requires k < 64 && (metadata.Some? && place.Some? ==> Placed(k, metadata.value, place.value))
  {
    if metadata.None? then [I32(0)]
    else
      var bytes := metadata.value;
      var size := I32(ToInt32(|bytes| + Pow2(k)));
      if place.None? then [size, I32(0)]
      else
        Aligned(64, k, place.value.address);
        var offset := Offset(64, place.value.address, Pow2(k));
        [size, Blob(Filled(place.value.memory, offset, bytes)), I32(ToInt32(offset))]
  }

  /** The blob and the offset behind a size. */
  function ReadBlob(k: nat, valid: seq<byte> -> bool, size: nat, p: seq<Item>): Result<(Option<seq<byte>>, seq<Item>)> {
    if |p| == 0 || !p[0].Blob? || |p[0].bytes| != size then Err(NOT_ENOUGH_DATA)
    else if |p| == 1 || !p[1].I32? then Err(NOT_ENOUGH_DATA)
    else
      var offset := ToSize(p[1].value);
      if offset >= Pow2(k) || offset < 0 || size <= Pow2(k) then Err(BAD_VALUE)
      else
        var bytes := p[0].bytes[offset..offset + (size - Pow2(k))];
        if valid(bytes) then Ok((Some(bytes), p[2..])) else Err(BAD_VALUE)
  }

  /** `readFromParcel`; `valid` is the validation of `allocate_copy_camera_metadata_checked`. */
  function Read(k: nat, valid: seq<byte> -> bool, p: seq<Item>): Result<(Option<seq<byte>>, seq<Item>)> {
    if |p| == 0 || !p[0].I32? then Err(NOT_ENOUGH_DATA)
    else
      var size := ToSize(p[0].value);
      if size == 0 then Ok((None, p[1..]))
      else if size <= Pow2(k) then Err(BAD_VALUE)
      else ReadBlob(k, valid, size, p[1..])
  }

  /** A size that sign extension of its low 32 bits gives back. */
  predicate Short(size: nat) { size < 0x8000_0000 || size >= 0xFFFF_FFFF_8000_0000 }

  /** Of all 64-bit sizes, those and no others survive the two casts. */
  lemma SizeSurvives(size: nat)
    requires size < 0x1_0000_0000_0000_0000
    ensures ToSize(ToInt32(size)) == size <==> Short(size)
  {
    if size < 0x8000_0000 {
      assert size % 0x1_0000_0000 == size;
    } else if size >= 0xFFFF_FFFF_8000_0000 {
      assert size % 0x1_0000_0000 == size - 0xFFFF_FFFF_0000_0000;
    }
  }

  /** Null metadata is a zero and comes back as null. */
  lemma NullRoundTrip(k: nat, valid: seq<byte> -> bool, place: Option<Place>, rest: seq<Item>)
    requires k < 64
    ensures Write(k, None, place) == [I32(0)]
    ensures Read(k, valid, Write(k, None, place) + rest) == Ok((None, rest))
  {
    assert ([I32(0)] + rest)[1..] == rest;
  }

  lemma {:induction false} ReadPlaced(k: nat, valid: seq<byte> -> bool, bytes: seq<byte>, blob: seq<byte>, offset: nat, rest: seq<Item>)
    requires offset < Pow2(k) < 0x8000_0000 && |blob| == |bytes| + Pow2(k) && blob[offset..offset + |bytes|] == bytes
    ensures
      var r := ReadBlob(k, valid, |blob|, [Blob(blob), I32(ToInt32(offset))] + rest);
      bytes != [] ==> r == if valid(bytes) then Ok((Some(bytes), rest)) else Err(BAD_VALUE)
  {
    var p := [Blob(blob), I32(ToInt32(offset))] + rest;
    SizeSurvives(offset);
    assert p[2..] == rest;
  }

  /**
    Wherever the writer's blob lies and whatever it held, the reader gets the same bytes back,
    exactly when there are any, the blob's size fits an int32, and the reader accepts them.
  */
  lemma {:induction false} BlobRoundTrip(k: nat, valid: seq<byte> -> bool, bytes: seq<byte>, place: Place, rest: seq<Item>)
    requires k < 64 && Placed(k, bytes, place) && |bytes| + Pow2(k) < 0x8000_0000_0000_0000
    ensures Read(k, valid, Write(k, Some(bytes), Some(place)) + rest) == Ok((Some(bytes), rest))
       <==> bytes != [] && |bytes| + Pow2(k) < 0x8000_0000 && valid(bytes)
  {
    hide ToInt32, ToSize, Offset, And, AlignTo, Word;
    var size := |bytes| + Pow2(k);
    Aligned(64, k, place.address);
    var offset := Offset(64, place.address, Pow2(k));
    var blob := Filled(place.memory, offset, bytes);
    var p := Write(k, Some(bytes), Some(place)) + rest;
    assert p[1..] == [Blob(blob), I32(ToInt32(offset))] + rest;
    SizeSurvives(size);
    if size < 0x8000_0000 {
      ReadPlaced(k, valid, bytes, blob, offset, rest);
    }
  }

  /** What the writes of size, blob and offset return. */
  datatype Statuses = Statuses(size: int, blob: int, offset: int)

  /** What `writeToParcel` returns: the status of the blob is overwritten by that of the offset. */
  function WriteStatus(metadata: Option<seq<byte>>, s: Statuses): int {
    if metadata.None? || s.size != OK then s.size else s.offset
  }

  /**
    So success is reported exactly when size and offset were written, with or without a blob;
    and a parcel that ends where the blob is missing is refused by the reader.
  */
  lemma {:induction false} FailedBlobUnreported(k: nat, valid: seq<byte> -> bool, bytes: seq<byte>, s: Statuses)
    requires k < 64 && |bytes| + Pow2(k) < 0x8000_0000
    ensures WriteStatus(Some(bytes), s) == OK <==> s.size == OK && s.offset == OK
    ensures Read(k, valid, Write(k, Some(bytes), None)).Err?
  {
    SizeSurvives(|bytes| + Pow2(k));
    assert Write(k, Some(bytes), None)[1..] == [I32(0)];
  }

  // -------------------------------------------------------------------- in place

  method CopyAt(memory: array<byte>, at: nat, bytes: seq<byte>)
    requires at + |bytes| <= memory.Length
    modifies memory
    ensures memory[..] == Filled(old(memory[..]), at, bytes)
  {
    for i := 0 to |bytes|
      invariant forall j :: 0 <= j < i ==> memory[at + j] == bytes[j]
      invariant forall j :: 0 <= j < at ==> memory[j] == old(memory[j])
      invariant forall j :: at + i <= j < memory.Length ==> memory[j] == old(memory[j])
    {
      memory[at + i] := bytes[i];
    }
    assert memory[..] == memory[..at] + memory[at..at + |bytes|] + memory[at + |bytes|..];
    assert memory[at..at + |bytes|] == bytes;
  }

  /** The copy into the blob, at the aligned address. */
  method CopyAligned(memory: array<byte>, address: nat, k: nat, bytes: seq<byte>) returns (offset: nat)
    requires k < 64 && address < Pow2(64) && memory.Length == |bytes| + Pow2(k)
    modifies memory
    ensures offset < Pow2(k) <= Pow2(64) && offset + |bytes| <= memory.Length
    ensures offset == Offset(64, address, Pow2(k))
    ensures memory[..] == Filled(old(memory[..]), offset, bytes)
    ensures exists q: nat :: Word(64, address + offset) == q * Pow2(k)
  {
    Aligned(64, k, address);
    offset := Offset(64, address, Pow2(k));
    CopyAt(memory, offset, bytes);
  }

  lemma ToInt32Zero()
    ensures ToInt32(0) == 0
  {
  }

  /** What is in the parcel after the writes that succeeded. */
  function Left(written: seq<Item>, metadata: Option<seq<byte>>, s: Statuses): seq<Item> {
    if s.size != OK || written == [] then []
    else if metadata.Some? && s.offset != OK then written[..|written| - 1]
    else written
  }

  method WriteToParcel(k: nat, metadata: Option<seq<byte>>, s: Statuses, address: nat, memory: array<byte>)
    returns (p: seq<Item>, status: int)
    requires k < 64
    requires metadata.Some? && s.blob == OK ==> Placed(k, metadata.value, Place(address, memory[..]))
    modifies memory
    ensures status == WriteStatus(metadata, s)
    ensures p == Left(Write(k, metadata, if s.blob == OK then Some(Place(address, old(memory[..]))) else None), metadata, s)
  {
    hide Offset, ToInt32, Filled;
    ToInt32Zero();
    p, status := [], s.size;
    if metadata.None? {
      if s.size == OK { p := [I32(0)]; }
      return;
    }
    var bytes := metadata.value;
    if s.size != OK {
      return;
    }
    p := [I32(ToInt32(|bytes| + Pow2(k)))];
    var offset := 0;
    if s.blob == OK {
      offset := CopyAligned(memory, address, k, bytes);
      p := p + [Blob(memory[..])];
    }
    if s.offset == OK { p := p + [I32(ToInt32(offset))]; }
    status := s.offset;
  }
}
