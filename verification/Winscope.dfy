/**
  The two Winscope metadata encoders of cmds/screenrecord/screenrecord.cpp.  Integers are
  mathematical; the stated ranges are those in which the 64-bit sums of the code do not
  overflow.
*/
module Winscope {
  import opened Basics

  // ------------------------------------------------------------- little endian

  function Pow256(n: nat): nat { if n == 0 then 1 else 256 * Pow256(n - 1) }

  /** The `n` low bytes of `v`, low byte first; a negative `v` is shifted arithmetically. */
  function LE(v: int, n: nat): (r: seq<byte>)
    ensures |r| == n
    decreases n
  {
    if n == 0 then [] else [v % 256] + LE(v / 256, n - 1)
  }

  function Decode(bs: seq<byte>): nat {
    if bs == [] then 0 else bs[0] + 256 * Decode(bs[1..])
  }

  /** Reading back unsigned bytes, and reading them as a two's complement number. */
  lemma {:induction false} DecodeUnsigned(v: int, n: nat)
    requires 0 <= v < Pow256(n)
    ensures Decode(LE(v, n)) == v
    decreases n
  {
    if n == 0 {
    } else {
      DecodeUnsigned(v / 256, n - 1);
      assert LE(v, n)[1..] == LE(v / 256, n - 1);
    }
  }

  lemma {:induction false} DecodeNegative(v: int, n: nat)
    requires n > 0 && v < 0 <= v + Pow256(n)
    ensures Decode(LE(v, n)) == v + Pow256(n)
    decreases n
  {
    assert LE(v, n)[1..] == LE(v / 256, n - 1);
    if n > 1 {
      assert v / 256 < 0 <= v / 256 + Pow256(n - 1);
      DecodeNegative(v / 256, n - 1);
    } else {
      assert v / 256 == -1;
    }
  }

  function Signed64(u: int): int { if u < 0x8000_0000_0000_0000 then u else u - 0x1_0000_0000_0000_0000 }

  function Unsigned64(v: int): int { if v < 0 then v + 0x1_0000_0000_0000_0000 else v }

  predicate IsInt64(v: int) { -0x8000_0000_0000_0000 <= v < 0x8000_0000_0000_0000 }

  lemma Pow256Values()
    ensures Pow256(4) == 0x1_0000_0000 && Pow256(8) == 0x1_0000_0000_0000_0000
  {
    assert Pow256(2) == 0x1_0000 && Pow256(4) == 0x1_0000 * Pow256(2);
    assert Pow256(6) == 0x1_0000 * Pow256(4) && Pow256(8) == 0x1_0000 * Pow256(6);
  }

  /** A signed 64-bit value survives, written as itself or through `uint64_t`. */
  lemma {:induction false} Signed64RoundTrip(v: int)
    requires IsInt64(v)
    ensures Signed64(Decode(LE(v, 8))) == v
    ensures Signed64(Decode(LE(Unsigned64(v), 8))) == v
  {
    Pow256Values();
    DecodeUnsigned(Unsigned64(v), 8);
    if v < 0 { DecodeNegative(v, 8); } else { DecodeUnsigned(v, 8); }
  }

  lemma {:induction false} Uint32RoundTrip(v: int)
    requires 0 <= v < 0x1_0000_0000
    ensures Decode(LE(v, 4)) == v
  {
    Pow256Values();
    DecodeUnsigned(v, 4);
  }

  // ------------------------------------------------------------------- formats

  function Bytes(s: string): (r: seq<byte>)
    requires forall i :: 0 <= i < |s| ==> s[i] as int < 128
    ensures |r| == |s|
  {
    seq(|s|, i requires 0 <= i < |s| => s[i] as int)
  }

  const MAGIC_LEGACY: seq<byte> := [35, 86, 86, 49, 78, 83, 67, 48, 80, 69, 84, 49, 77, 69, 33, 35]
  const MAGIC: seq<byte> := [35, 86, 86, 49, 78, 83, 67, 48, 80, 69, 84, 49, 77, 69, 50, 35]
  const METADATA_VERSION := 2

  /** The two magic strings spelled out. */
  lemma MagicText()
    ensures MAGIC_LEGACY == Bytes("#VV1NSC0PET1ME!#") && MAGIC == Bytes("#VV1NSC0PET1ME2#")
  {
  }

  /** Time stamps as the code adjusts them before writing: each must fit a signed 64-bit integer. */
  predicate Fits(ts: seq<int>) { forall i :: 0 <= i < |ts| ==> IsInt64(ts[i]) }

  function Legacy(ts: seq<int>, offsetUs: int): (r: seq<int>)
    ensures |r| == |ts| && forall i :: 0 <= i < |r| ==> r[i] == ts[i] + offsetUs
  {
    seq(|ts|, i requires 0 <= i < |ts| => ts[i] + offsetUs)
  }

  function Elapsed(ts: seq<int>, offsetNs: int): (r: seq<int>)
    ensures |r| == |ts| && forall i :: 0 <= i < |r| ==> r[i] == offsetNs + ts[i] * 1000
  {
    seq(|ts|, i requires 0 <= i < |ts| => offsetNs + ts[i] * 1000)
  }

  function EncodeTimes(ts: seq<int>): (r: seq<byte>)
    ensures |r| == 8 * |ts|
  {
    if ts == [] then [] else LE(Unsigned64(ts[0]), 8) + EncodeTimes(ts[1..])
  }

  function EncodeLegacy(ts: seq<int>): seq<byte> { MAGIC_LEGACY + LE(|ts|, 4) + EncodeTimes(ts) }

  function EncodeV2(realToElapsedNs: int, ts: seq<int>): seq<byte> {
    MAGIC + LE(METADATA_VERSION, 4) + LE(realToElapsedNs, 8) + LE(|ts|, 4) + EncodeTimes(ts)
  }

  function DecodeTimes(bs: seq<byte>, n: nat): seq<int>
    requires |bs| == 8 * n
  {
    if n == 0 then [] else [Signed64(Decode(bs[..8]))] + DecodeTimes(bs[8..], n - 1)
  }

  /** A reader of the legacy form: the times, if magic, count and length agree. */
  function ReadLegacy(bs: seq<byte>): Option<seq<int>> {
    if |bs| < 20 || bs[..16] != MAGIC_LEGACY then None
    else
      var n := Decode(bs[16..20]);
      if |bs| != 20 + 8 * n then None else Some(DecodeTimes(bs[20..], n))
  }

  datatype Metadata = Metadata(version: int, realToElapsedNs: int, times: seq<int>)

  function ReadV2(bs: seq<byte>): Option<Metadata> {
    if |bs| < 32 || bs[..16] != MAGIC then None
    else
      var n := Decode(bs[28..32]);
      if |bs| != 32 + 8 * n then None
      else Some(Metadata(Decode(bs[16..20]), Signed64(Decode(bs[20..28])), DecodeTimes(bs[32..], n)))
  }

  lemma {:induction false} TimesRoundTrip(ts: seq<int>)
    requires Fits(ts)
    ensures DecodeTimes(EncodeTimes(ts), |ts|) == ts
  {
    hide LE, Decode, Signed64, Unsigned64;
    if ts == [] {
    } else {
      var bs := EncodeTimes(ts);
      assert bs[..8] == LE(Unsigned64(ts[0]), 8) && bs[8..] == EncodeTimes(ts[1..]);
      Signed64RoundTrip(ts[0]);
      TimesRoundTrip(ts[1..]);
    }
  }

  /** Whatever the time stamps, a reader of the legacy form recovers count and every adjusted time. */
  lemma LegacyRoundTrip(ts: seq<int>)
    requires |ts| < 0x1_0000_0000 && Fits(ts)
    ensures ReadLegacy(EncodeLegacy(ts)) == Some(ts)
  {
    hide LE, Decode;
    var bs := EncodeLegacy(ts);
    assert bs[..16] == MAGIC_LEGACY && bs[16..20] == LE(|ts|, 4) && bs[20..] == EncodeTimes(ts);
    Uint32RoundTrip(|ts|);
    TimesRoundTrip(ts);
  }

  /** ... and of the second version, version and signed offset as well. */
  lemma V2RoundTrip(realToElapsedNs: int, ts: seq<int>)
    requires |ts| < 0x1_0000_0000 && Fits(ts) && IsInt64(realToElapsedNs)
    ensures ReadV2(EncodeV2(realToElapsedNs, ts)) == Some(Metadata(METADATA_VERSION, realToElapsedNs, ts))
  {
    hide LE, Decode;
    var bs := EncodeV2(realToElapsedNs, ts);
    assert bs[..16] == MAGIC && bs[16..20] == LE(METADATA_VERSION, 4);
    assert bs[20..28] == LE(realToElapsedNs, 8) && bs[28..32] == LE(|ts|, 4) && bs[32..] == EncodeTimes(ts);
    Uint32RoundTrip(|ts|);
    Uint32RoundTrip(METADATA_VERSION);
    Signed64RoundTrip(realToElapsedNs);
    TimesRoundTrip(ts);
  }

  // ------------------------------------------------------------------- writers

  /** `writeValueLE`. */
  method WriteValueLE(value: int, size: nat, buffer: array<byte>, pos: nat)
    requires pos + size <= buffer.Length
    modifies buffer
    ensures buffer[pos..pos + size] == LE(value, size)
    ensures buffer[..pos] == old(buffer[..pos]) && buffer[pos + size..] == old(buffer[pos + size..])
  {
    var temp := value;
    for i := 0 to size
      invariant buffer[pos..pos + i] + LE(temp, size - i) == LE(value, size)
      invariant buffer[..pos] == old(buffer[..pos]) && buffer[pos + size..] == old(buffer[pos + size..])
    {
      ghost var written := buffer[pos..pos + i];
      assert LE(temp, size - i) == [temp % 256] + LE(temp / 256, size - i - 1);
      buffer[pos + i] := temp % 256;
      assert buffer[pos..pos + i + 1] == written + [temp % 256];
      temp := temp / 256;
    }
  }

  /** Copy constant bytes into the buffer. */
  method CopyIn(bytes: seq<byte>, buffer: array<byte>, pos: nat)
    requires pos + |bytes| <= buffer.Length
    modifies buffer
    ensures buffer[pos..pos + |bytes|] == bytes
    ensures buffer[..pos] == old(buffer[..pos]) && buffer[pos + |bytes|..] == old(buffer[pos + |bytes|..])
  {
    forall i | 0 <= i < |bytes| { buffer[pos + i] := bytes[i]; }
  }

  /** The loop over the time stamps, from `start` to the very end of the buffer. */
  method WriteTimes(ts: seq<int>, buffer: array<byte>, start: nat)
    requires start + 8 * |ts| == buffer.Length
    modifies buffer
    ensures buffer[..start] == old(buffer[..start]) && buffer[start..] == EncodeTimes(ts)
  {
    hide LE, Unsigned64;
    var pos := start;
    for idx := 0 to |ts|
      invariant pos == start + 8 * idx
      invariant buffer[..start] == old(buffer[..start])
      invariant buffer[start..pos] + EncodeTimes(ts[idx..]) == EncodeTimes(ts)
    {
      ghost var head := buffer[..pos];
      WriteValueLE(Unsigned64(ts[idx]), 8, buffer, pos);
      TimesStep(head, start, buffer[..pos + 8], ts, idx);
      pos := pos + 8;
    }
    assert buffer[start..] == buffer[start..pos] + [];
  }

  /** Eight more bytes in place are one more time stamp done. */
  lemma TimesStep(head: seq<byte>, start: nat, now: seq<byte>, ts: seq<int>, idx: nat)
    requires idx < |ts| && start <= |head| && |now| == |head| + 8 && now[..|head|] == head
    requires now[|head|..] == LE(Unsigned64(ts[idx]), 8)
    ensures now[..start] == head[..start]
    ensures now[start..] + EncodeTimes(ts[idx + 1..]) == head[start..] + EncodeTimes(ts[idx..])
  {
    hide LE, Unsigned64;
    assert ts[idx..][1..] == ts[idx + 1..] && ts[idx..][0] == ts[idx];
    assert now == head + now[|head|..];
  }

  /** `writeWinscopeMetadataLegacy`: the buffer it hands to the muxer, filled to the last byte. */
  method WriteLegacy(ts: seq<int>, offsetUs: int) returns (buffer: array<byte>)
    requires 0 < |ts| < 0x1_0000_0000 && Fits(Legacy(ts, offsetUs))
    ensures fresh(buffer) && buffer[..] == EncodeLegacy(Legacy(ts, offsetUs))
  {
    hide LE;
    buffer := new byte[|ts| * 8 + 4 + 16](_ => 0);
    // strcpy copies the terminator too; the frame count then overwrites it
    MagicText();
    CopyIn(Bytes("#VV1NSC0PET1ME!#") + [0], buffer, 0);
    assert buffer[..16] == MAGIC_LEGACY by { assert buffer[..16] == buffer[0..17][..16]; }
    WriteValueLE(|ts|, 4, buffer, 16);
    ghost var head := buffer[..20];
    assert head == MAGIC_LEGACY + LE(|ts|, 4) by { assert head == buffer[..16] + buffer[16..20]; }
    WriteTimes(Legacy(ts, offsetUs), buffer, 20);
    assert buffer[..] == buffer[..20] + buffer[20..];
  }

  /** `writeWinscopeMetadata`. */
  method WriteV2(ts: seq<int>, elapsedToMonotonicNs: int, realToElapsedNs: int) returns (buffer: array<byte>)
    requires 0 < |ts| < 0x1_0000_0000 && Fits(Elapsed(ts, elapsedToMonotonicNs)) && IsInt64(realToElapsedNs)
    ensures fresh(buffer) && buffer[..] == EncodeV2(realToElapsedNs, Elapsed(ts, elapsedToMonotonicNs))
  {
    hide LE;
    buffer := new byte[16 + 4 + 8 + 4 + |ts| * 8](_ => 0);
    MagicText();
    CopyIn(Bytes("#VV1NSC0PET1ME2#"), buffer, 0);
    assert buffer[..16] == MAGIC by { assert buffer[..16] == buffer[0..16]; }
    WriteValueLE(METADATA_VERSION, 4, buffer, 16);
    assert buffer[..20] == buffer[..16] + buffer[16..20];
    ghost var head := buffer[..20];
    WriteValueLE(realToElapsedNs, 8, buffer, 20);
    assert buffer[..28] == head + buffer[20..28];
    head := buffer[..28];
    WriteValueLE(|ts|, 4, buffer, 28);
    assert buffer[..32] == head + buffer[28..32];
    head := buffer[..32];
    WriteTimes(Elapsed(ts, elapsedToMonotonicNs), buffer, 32);
    assert buffer[..] == head + buffer[32..];
  }
}
