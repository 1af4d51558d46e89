/**
  The text forms shared by camera/CameraParameters.cpp and camera/CameraParameters2.cpp:
  "key=value;key=value", decimal numbers, and "WxH" sizes.  C strings are sequences of
  characters without their terminator.
*/
module ParameterText {
  import opened Basics

  type Pairs = seq<(string, string)>

  // ------------------------------------------------------------ key/value text

  /** `strchr`, section 7.24.5.2 of C11, for a character other than the terminator. */
  function StrChr(s: string, c: char): (r: Option<nat>)
    ensures r.Some? ==> r.value < |s|
  {
    if s == [] then None
    else if s[0] == c then Some(0)
    else match StrChr(s[1..], c)
      case None => None
      case Some(i) => Some(i + 1)
  }

  lemma {:induction false} StrChrFirst(s: string, c: char)
    ensures match StrChr(s, c) case None => c !in s case Some(i) => s[i] == c && c !in s[..i]
  {
    if s == [] {
    } else {
      StrChrFirst(s[1..], c);
      assert s == [s[0]] + s[1..];
      if StrChr(s, c).Some? && s[0] != c {
        var i := StrChr(s, c).value;
        assert s[..i] == [s[0]] + s[1..][..i - 1];
      }
    }
  }

  /** `flatten`. */
  function Print(ps: Pairs): string {
    if ps == [] then ""
    else ps[0].0 + "=" + if |ps| == 1 then ps[0].1 else ps[0].1 + ";" + Print(ps[1..])
  }

  /** One pair, and the text after its ';' if there is one. */
  datatype Item = Item(key: string, value: string, rest: Option<string>)

  /** One turn of the loop of `unflatten`; None when no '=' is left. */
  function NextItem(s: string): (r: Option<Item>)
    ensures r.Some? && r.value.rest.Some? ==> |r.value.rest.value| < |s|
  {
    match StrChr(s, '=')
    case None => None
    case Some(b) =>
      var tail := s[b + 1..];
      match StrChr(tail, ';')
      case None => Some(Item(s[..b], tail, None))
      case Some(e) => Some(Item(s[..b], tail[..e], Some(tail[e + 1..])))
  }

  /** The pairs `unflatten` finds, in order. */
  function Parse(s: string): Pairs
    decreases |s|
  {
    match NextItem(s)
    case None => []
    case Some(it) => [(it.key, it.value)] + if it.rest.None? then [] else Parse(it.rest.value)
  }

  /** A key has no '=', a value no ';'. */
  predicate PairOk(p: (string, string)) { '=' !in p.0 && ';' !in p.1 }

  predicate Printable(ps: Pairs) { forall i :: 0 <= i < |ps| ==> PairOk(ps[i]) }

  lemma NextItemOk(s: string)
    ensures NextItem(s).Some? ==> PairOk((NextItem(s).value.key, NextItem(s).value.value))
  {
    StrChrFirst(s, '=');
    match StrChr(s, '=')
    case None =>
    case Some(b) => StrChrFirst(s[b + 1..], ';');
  }

  /** What is parsed is always printable. */
  lemma {:induction false} ParsedIsPrintable(s: string)
    ensures Printable(Parse(s))
    decreases |s|
  {
    hide NextItem;
    NextItemOk(s);
    match NextItem(s)
    case None =>
    case Some(it) => if it.rest.Some? { ParsedIsPrintable(it.rest.value); }
  }

  lemma {:induction false} FirstAt(s: string, c: char, tail: string)
    requires c !in s
    ensures StrChr(s + [c] + tail, c) == Some(|s|)
  {
    if s == [] {
    } else {
      FirstAt(s[1..], c, tail);
      assert (s + [c] + tail)[1..] == s[1..] + [c] + tail;
    }
  }

  lemma NextNone()
    ensures NextItem("").None?
  {
  }

  lemma NextLast(k: string, v: string)
    requires PairOk((k, v))
    ensures NextItem(k + "=" + v) == Some(Item(k, v, None))
  {
    var s := k + ['='] + v;
    FirstAt(k, '=', v);
    StrChrFirst(v, ';');
    assert s[..|k|] == k && s[|k| + 1..] == v;
  }

  lemma NextMore(k: string, v: string, tail: string)
    requires PairOk((k, v))
    ensures NextItem(k + "=" + (v + ";" + tail)) == Some(Item(k, v, Some(tail)))
  {
    var rest := v + [';'] + tail;
    var s := k + ['='] + rest;
    FirstAt(k, '=', rest);
    FirstAt(v, ';', tail);
    assert s[..|k|] == k && s[|k| + 1..] == rest;
    assert rest[..|v|] == v && rest[|v| + 1..] == tail;
  }

  lemma {:induction false} ParsePrint(ps: Pairs)
    requires Printable(ps)
    ensures Parse(Print(ps)) == ps
  {
    hide NextItem;
    if ps == [] {
      NextNone();
    } else {
      var (k, v) := ps[0];
      assert PairOk(ps[0]);
      if |ps| == 1 {
        NextLast(k, v);
        assert Print(ps) == k + "=" + v && ps == [(k, v)];
      } else {
        ParsePrint(ps[1..]);
        NextMore(k, v, Print(ps[1..]));
        assert Print(ps) == k + "=" + (v + ";" + Print(ps[1..]));
        assert ps == [(k, v)] + ps[1..];
      }
    }
  }

  /** Printing loses nothing exactly when no key contains '=' and no value contains ';'. */
  lemma {:induction false} PrintLosesNothing(ps: Pairs)
    ensures Parse(Print(ps)) == ps <==> Printable(ps)
  {
    if Printable(ps) { ParsePrint(ps); }
    ParsedIsPrintable(Print(ps));
  }

  // ------------------------------------------------------------------- numbers

  predicate IsInt(n: int) { -0x8000_0000 <= n < 0x8000_0000 }

  predicate IsSpace(c: char) { c == ' ' || '\t' <= c <= '\r' }

  /** The value of a digit, or 99 for a character that is none. */
  function DigitValue(c: char): nat {
    if '0' <= c <= '9' then (c as int - '0' as int) as nat
    else if 'a' <= c <= 'z' then (c as int - 'a' as int + 10) as nat
    else if 'A' <= c <= 'Z' then (c as int - 'A' as int + 10) as nat
    else 99
  }

  predicate IsDigit(c: char, base: nat) { DigitValue(c) < base }

  /** Length of the longest prefix of digits. */
  function DigitRun(s: string, base: nat): (n: nat)
    ensures n <= |s|
  {
    if s == [] || !IsDigit(s[0], base) then 0 else 1 + DigitRun(s[1..], base)
  }

  function DigitsValue(s: string, base: nat): nat {
    if s == [] then 0 else DigitsValue(s[..|s| - 1], base) * base + DigitValue(s[|s| - 1])
  }

  function SkipSpace(s: string): (n: nat)
    ensures n <= |s|
  {
    if s == [] || !IsSpace(s[0]) then 0 else 1 + SkipSpace(s[1..])
  }

  predicate HexPrefix(s: string) { |s| > 2 && s[0] == '0' && (s[1] == 'x' || s[1] == 'X') && IsDigit(s[2], 16) }

  /** The base `strtol` uses for a subject without its sign, and the length of the prefix it drops. */
  function Base(s: string, base: nat): (nat, nat) {
    if base != 0 then (base, 0)
    else if HexPrefix(s) then (16, 2)
    else if s != [] && s[0] == '0' then (8, 0)
    else (10, 0)
  }

  function Clamp(n: int): int {
    if n < -0x8000_0000_0000_0000 then -0x8000_0000_0000_0000
    else if n > 0x7fff_ffff_ffff_ffff then 0x7fff_ffff_ffff_ffff
    else n
  }

  /** A subject without its sign: its value and length, or None if it has no digit. */
  function Magnitude(t: string, base: nat): (r: Option<(nat, nat)>)
    ensures r.Some? ==> 0 < r.value.1 <= |t|
  {
    var (b, drop) := Base(t, base);
    var n := DigitRun(t[drop..], b);
    if n == 0 then None else Some((DigitsValue(t[drop..][..n], b), drop + n))
  }

  predicate Sign(s: string, i: nat) { i < |s| && (s[i] == '-' || s[i] == '+') }

  /** `strtol`, section 7.22.1.4 of C11, with a 64-bit long: the value and where it stopped. */
  function Strtol(s: string, base: nat): (r: (int, nat))
    ensures r.1 <= |s|
  {
    var i := SkipSpace(s);
    var start := if Sign(s, i) then i + 1 else i;
    match Magnitude(s[start..], base)
    case None => (0, 0)
    case Some(m) => (Clamp(if Sign(s, i) && s[i] == '-' then -(m.0 as int) else m.0), start + m.1)
  }

  /** Conversion of a long to an int: the low 32 bits. */
  function ToInt(n: int): (r: int)
    ensures IsInt(r) && (IsInt(n) ==> r == n)
    decreases if n >= 0x8000_0000 then n - 0x7fff_ffff else if n < -0x8000_0000 then -n - 0x8000_0000 else 0
  {
    if n >= 0x8000_0000 then ToInt(n - 0x1_0000_0000)
    else if n < -0x8000_0000 then ToInt(n + 0x1_0000_0000)
    else n
  }

  function DigitChar(d: nat): char
    requires d < 10
  {
    '0' + d as char
  }

  function PrintNat(n: nat): (s: string)
    ensures s != []
  {
    if n < 10 then [DigitChar(n)] else PrintNat(n / 10) + [DigitChar(n % 10)]
  }

  /** `printf("%d")`. */
  function PrintInt(n: int): string { if n < 0 then "-" + PrintNat(-n) else PrintNat(n) }

  predicate Decimal(s: string) { forall i :: 0 <= i < |s| ==> '0' <= s[i] <= '9' }

  lemma {:induction false} PrintNatFacts(n: nat)
    ensures Decimal(PrintNat(n)) && DigitsValue(PrintNat(n), 10) == n
    ensures PrintNat(n)[0] == '0' ==> n == 0
  {
    if n < 10 {
      assert PrintNat(n)[..0] == [];
    } else {
      PrintNatFacts(n / 10);
      assert PrintNat(n)[..|PrintNat(n)| - 1] == PrintNat(n / 10);
      assert PrintNat(n)[0] == PrintNat(n / 10)[0];
    }
  }

  lemma {:induction false} DecimalRun(s: string, tail: string)
    requires Decimal(s) && (tail == [] || !IsDigit(tail[0], 10))
    ensures DigitRun(s + tail, 10) == |s|
  {
    if s == [] {
      assert s + tail == tail;
    } else {
      assert (s + tail)[1..] == s[1..] + tail;
      DecimalRun(s[1..], tail);
    }
  }

  lemma {:induction false} MagnitudePrinted(m: nat, tail: string)
    requires tail == [] || !IsDigit(tail[0], 10)
    ensures Magnitude(PrintNat(m) + tail, 10) == Some((m, |PrintNat(m)|))
  {
    var d := PrintNat(m);
    PrintNatFacts(m);
    DecimalRun(d, tail);
    assert (d + tail)[0..] == d + tail && (d + tail)[..|d|] == d;
  }

  lemma {:induction false} MagnitudePrintedAnyBase(m: nat)
    ensures Magnitude(PrintNat(m), 0) == Some((m, |PrintNat(m)|))
  {
    var d := PrintNat(m);
    PrintNatFacts(m);
    assert d[0..] == d && d[..|d|] == d;
    if m == 0 {
      assert d == ['0'] && d[1..] == [] && d[..0] == [];
      assert DigitRun(d, 8) == 1 && DigitsValue(d, 8) == 0;
    } else {
      DecimalRun(d, []);
      assert d + [] == d;
    }
  }

  lemma PrintIntLength(n: int)
    ensures |PrintInt(n)| == if n < 0 then 1 + |PrintNat(-n)| else |PrintNat(n)|
  {
  }

  lemma {:induction false} PrintNatHead(n: nat)
    ensures '0' <= PrintNat(n)[0] <= '9'
  {
    PrintNatFacts(n);
  }

  /** A printed number starts neither with a space nor, unless negative, with a sign. */
  lemma PrintedStart(n: int, tail: string)
    ensures
      var s := PrintInt(n) + tail;
      && SkipSpace(s) == 0
      && (n < 0 ==> s[0] == '-' && s[1..] == PrintNat(-n) + tail)
      && (n >= 0 ==> !Sign(s, 0) && s[0..] == PrintNat(n) + tail)
  {
    hide PrintNat;
    PrintNatHead(if n < 0 then -n else n);
    if n < 0 {
      assert PrintInt(n) + tail == ['-'] + (PrintNat(-n) + tail);
    }
  }

  /** Reading a printed number in base ten, up to a character that is no digit, gives it back. */
  lemma StrtolPrinted(n: int, tail: string)
    requires IsInt(n) && (tail == [] || !IsDigit(tail[0], 10))
    ensures Strtol(PrintInt(n) + tail, 10) == (n, |PrintInt(n)|)
  {
    hide Magnitude, PrintNat, PrintInt, SkipSpace;
    PrintedStart(n, tail);
    PrintIntLength(n);
    MagnitudePrinted(if n < 0 then -n else n, tail);
  }

  /** With base zero the digits decide the base, and a printed number still reads as decimal. */
  lemma StrtolPrintedAnyBase(n: int)
    requires IsInt(n)
    ensures Strtol(PrintInt(n), 0) == (n, |PrintInt(n)|)
  {
    hide Magnitude, PrintNat, PrintInt, SkipSpace;
    PrintIntLength(n);
    PrintedStart(n, []);
    assert PrintInt(n) + [] == PrintInt(n) && PrintNat(if n < 0 then -n else n) + [] == PrintNat(if n < 0 then -n else n);
    MagnitudePrintedAnyBase(if n < 0 then -n else n);
  }

  lemma {:induction false} PrintNatLength(n: nat, k: nat)
    requires k > 0 && n < Power10(k)
    ensures |PrintNat(n)| <= k
  {
    if n >= 10 {
      assert k > 1;
      PrintNatLength(n / 10, k - 1);
    }
  }

  function Power10(k: nat): nat { if k == 0 then 1 else 10 * Power10(k - 1) }

  /** A printed int fits the 16-byte buffer of `set`, and a printed pair the 32-byte one. */
  lemma PrintIntFits(n: int)
    requires IsInt(n)
    ensures |PrintInt(n)| <= 11
  {
    assert Power10(3) == 1000 && Power10(6) == 1000 * Power10(3) && Power10(9) == 1000 * Power10(6) && Power10(10) == 10 * Power10(9);
    PrintNatLength(if n < 0 then -n else n, 10);
  }

  // --------------------------------------------------------------------- sizes

  /** `s[i]`, terminator included. */
  function At(s: string, i: nat): char
    requires i <= |s|
  {
    if i < |s| then s[i] else '\0'
  }

  datatype PairRead = PairRead(first: int, second: int, end: nat)

  /** `parse_pair`; None for its failure. */
  function ParsePair(s: string, delim: char): (r: Option<PairRead>)
    requires delim != '\0'
    ensures r.Some? ==> 0 < r.value.end <= |s|
  {
    var w := Strtol(s, 10);
    if At(s, w.1) != delim then None
    else
      var h := Strtol(s[w.1 + 1..], 10);
      Some(PairRead(ToInt(w.0), ToInt(h.0), w.1 + 1 + h.1))
  }

  function PrintPair(a: int, b: int, delim: char): string { PrintInt(a) + [delim] + PrintInt(b) }

  lemma PairFrom(s: string, delim: char, a: int, e: nat, b: int, e': nat)
    requires delim != '\0' && IsInt(a) && IsInt(b)
    requires Strtol(s, 10) == (a, e) && e < |s| && s[e] == delim && Strtol(s[e + 1..], 10) == (b, e')
    ensures ParsePair(s, delim) == Some(PairRead(a, b, e + 1 + e'))
  {
    hide Strtol;
  }

  /** A printed pair, up to a character that is no digit, is read back exactly. */
  lemma ParsePrintedPair(a: int, b: int, delim: char, tail: string)
    requires IsInt(a) && IsInt(b) && delim != '\0' && !IsDigit(delim, 10)
    requires tail == [] || !IsDigit(tail[0], 10)
    ensures ParsePair(PrintPair(a, b, delim) + tail, delim) == Some(PairRead(a, b, |PrintPair(a, b, delim)|))
  {
    hide Strtol, ParsePair, PrintInt;
    var rest := PrintInt(b) + tail;
    var s := PrintPair(a, b, delim) + tail;
    assert s == PrintInt(a) + ([delim] + rest);
    StrtolPrinted(a, [delim] + rest);
    assert s[|PrintInt(a)| + 1..] == rest;
    StrtolPrinted(b, tail);
    PairFrom(s, delim, a, |PrintInt(a)|, b, |PrintInt(b)|);
  }

  /** `parseSizesList`: every string is read to the end or to the first bad size. */
  function ParseSizes(s: string): seq<(int, int)>
    decreases |s|
  {
    match ParsePair(s, 'x')
    case None => []
    case Some(p) =>
      if At(s, p.end) != ',' && At(s, p.end) != '\0' then []
      else [(p.first, p.second)] + if At(s, p.end) == '\0' then [] else ParseSizes(s[p.end + 1..])
  }

  function PrintSizes(l: seq<(int, int)>): string {
    if l == [] then ""
    else PrintPair(l[0].0, l[0].1, 'x') + if |l| == 1 then "" else "," + PrintSizes(l[1..])
  }

  /** Where a size ends, the list ends, goes on, or is broken off. */
  lemma {:induction false} SizesFrom(s: string, p: PairRead)
    requires ParsePair(s, 'x') == Some(p)
    ensures At(s, p.end) == '\0' ==> ParseSizes(s) == [(p.first, p.second)]
    ensures At(s, p.end) == ',' ==> ParseSizes(s) == [(p.first, p.second)] + ParseSizes(s[p.end + 1..])
    ensures At(s, p.end) != ',' && At(s, p.end) != '\0' ==> ParseSizes(s) == []
  {
    hide ParsePair;
  }

  lemma NoSizes()
    ensures ParseSizes("") == []
  {
    assert Strtol("", 10) == (0, 0);
  }

  /** A printed list of sizes, of any length, is read back exactly. */
  lemma {:induction false} SizesRoundTrip(l: seq<(int, int)>)
    requires forall i :: 0 <= i < |l| ==> IsInt(l[i].0) && IsInt(l[i].1)
    ensures ParseSizes(PrintSizes(l)) == l
  {
    hide ParsePair, PrintPair, ParseSizes;
    if l == [] {
      NoSizes();
    } else {
      var (w, h) := l[0];
      var tail := if |l| == 1 then "" else "," + PrintSizes(l[1..]);
      var s, e := PrintPair(w, h, 'x') + tail, |PrintPair(w, h, 'x')|;
      assert PrintSizes(l) == s;
      ParsePrintedPair(w, h, 'x', tail);
      SizesFrom(s, PairRead(w, h, e));
      if |l| == 1 {
        assert e == |s| && l == [(w, h)];
      } else {
        assert s[e] == ',' && s[e + 1..] == PrintSizes(l[1..]);
        SizesRoundTrip(l[1..]);
        assert l == [(w, h)] + l[1..];
      }
    }
  }

  lemma ListAssoc(r: seq<(int, int)>, x: (int, int), more: seq<(int, int)>)
    ensures r + ([x] + more) == (r + [x]) + more
  {
  }

  method ParseSizesList(s: Option<string>, sizes: seq<(int, int)>) returns (r: seq<(int, int)>)
    ensures r == sizes + if s.None? then [] else ParseSizes(s.value)
  {
    r := sizes;
    if s.None? {
      return;
    }
    var rest := s.value;
    ghost var target := sizes + ParseSizes(s.value);
    while true
      invariant r + ParseSizes(rest) == target
      decreases |rest|
    {
      var p := ParsePair(rest, 'x');
      if p.None? {
        return;
      }
      var PairRead(w, h, end) := p.value;
      SizesFrom(rest, p.value);
      if At(rest, end) != ',' && At(rest, end) != '\0' {
        return;
      }
      r := r + [(w, h)];
      if At(rest, end) == '\0' {
        return;
      }
      ListAssoc(r[..|r| - 1], (w, h), ParseSizes(rest[end + 1..]));
      rest := rest[end + 1..];
    }
  }

  method FindItem(a: string) returns (r: Option<Item>)
    ensures r == NextItem(a)
  {
    var b := StrChr(a, '=');
    if b.None? {
      return None;
    }
    var k := a[..b.value];
    var tail := a[b.value + 1..];
    var e := StrChr(tail, ';');
    if e.None? {
      return Some(Item(k, tail, None));
    }
    r := Some(Item(k, tail[..e.value], Some(tail[e.value + 1..])));
  }
}
