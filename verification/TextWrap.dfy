/**
  Line wrapping of cmds/screenrecord/TextRenderer.cpp.  `breakString` looks for the
  longest prefix that fits and moves back to white space if it can;
  `drawWrappedString` draws one piece per line.  Widths are real numbers.

  C strings end at a terminator, and `strchr` finds the terminator in every string:
  to both scans it counts as white space.
*/
module TextWrap {
  import opened Basics

  const OUTLINE_WIDTH := 1
  const FIRST_GLYPH_CHAR := 32
  const NUM_GLYPHS := 95

  type scale = s: real | s > 0.0 witness 1.0

  /** A character outside the font shows as '?'. */
  function GlyphIndex(ch: char): (i: nat)
    ensures i < NUM_GLYPHS
  {
    if FIRST_GLYPH_CHAR <= ch as int < FIRST_GLYPH_CHAR + NUM_GLYPHS then ch as int - FIRST_GLYPH_CHAR
    else '?' as int - FIRST_GLYPH_CHAR
  }

  /** How far each character moves the pen. */
  type Font = char -> real

  ghost predicate Forward(f: Font) { forall ch :: f(ch) > 0.0 }

  /** The font of a table of glyph widths (`FontBitmap::glyphWidth`) at a given scale. */
  function BitmapFont(widths: nat -> int, k: scale): Font {
    (ch: char) => (widths(GlyphIndex(ch)) - 1 - OUTLINE_WIDTH) as real * k
  }

  lemma AdvanceBounds(units: int, most: int, k: scale)
    requires 1 <= units <= most
    ensures 0.0 < units as real * k <= most as real * k
  {
  }

  /** With every glyph wider than its outline and padding, every glyph moves the pen forward. */
  lemma BitmapFontForward(widths: nat -> int, most: int, k: scale)
    requires forall i: nat :: i < NUM_GLYPHS ==> 2 < widths(i) <= most
    ensures Forward(BitmapFont(widths, k))
    ensures forall ch :: BitmapFont(widths, k)(ch) <= (most - 2) as real * k
  {
    forall ch: char ensures 0.0 < BitmapFont(widths, k)(ch) <= (most - 2) as real * k {
      AdvanceBounds(widths(GlyphIndex(ch)) - 2, most - 2, k);
    }
  }

  /** `computeScaledStringWidth`. */
  function Width(s: string, f: Font): real {
    if s == [] then 0.0 else Width(s[..|s| - 1], f) + f(s[|s| - 1])
  }

  /** `strchr(kWhitespace, ch) != NULL`. */
  predicate White(ch: char) { ch == ' ' || ch == '\t' || ch == '\n' || ch == '\r' || ch == '\0' }

  /** `str[i]`, terminator included. */
  function At(s: string, i: nat): char
    requires i <= |s|
  {
    if i < |s| then s[i] else '\0'
  }

  // -------------------------------------------------------------- breakString

  /** The longest prefix of at most `i` characters narrower than `w`. */
  function Longest(s: string, w: real, f: Font, i: nat): (r: nat)
    requires i <= |s|
    ensures r <= i
  {
    if i == 0 || Width(s[..i], f) < w then i else Longest(s, w, f, i - 1)
  }

  /** The last white space at or before `i`, or else `i` itself. */
  function BackToWhite(s: string, i: nat, j: nat): (r: nat)
    requires j <= i <= |s| && 0 < i
    ensures 0 < r <= i && (r != i ==> White(At(s, r)) && r <= j)
  {
    if j == 0 then i else if White(At(s, j)) then j else BackToWhite(s, i, j - 1)
  }

  function GoodPos(s: string, w: real, f: Font): (r: nat)
    requires s != []
    ensures 0 < r <= |s| && (r < |s| || |s| == 1)
  {
    var n := Longest(s, w, f, |s| - 1);
    if n == 0 then 1 else n
  }

  /** `breakString`: None if the whole string fits. */
  function Break(s: string, w: real, f: Font): (r: Option<nat>)
    ensures r.Some? ==> s != [] && 0 < r.value <= |s| && Width(s, f) > w
    ensures r.None? ==> s == [] || Width(s, f) <= w
    ensures r.Some? && r.value == |s| ==> |s| == 1
  {
    if s == [] || Width(s, f) <= w then None
    else Some(BackToWhite(s, GoodPos(s, w, f), GoodPos(s, w, f)))
  }

  lemma {:induction false} WidthMonotone(s: string, f: Font, i: nat, j: nat)
    requires Forward(f) && i <= j <= |s|
    ensures Width(s[..i], f) <= Width(s[..j], f)
  {
    if i < j {
      WidthMonotone(s, f, i, j - 1);
      assert s[..j][..j - 1] == s[..j - 1];
    }
  }

  /** A prefix no longer than a narrow one is narrow: the upward scan and the longest prefix agree. */
  lemma {:induction false} LongestIsLast(s: string, w: real, f: Font, n: nat, g: nat)
    requires Forward(f) && g <= n <= |s|
    requires g == 0 || Width(s[..g], f) < w
    requires g == n || Width(s[..g + 1], f) >= w
    ensures Longest(s, w, f, n) == g
    decreases n
  {
    if n > g {
      WidthMonotone(s, f, g + 1, n);
      LongestIsLast(s, w, f, n - 1, g);
    }
  }

  method BreakString(s: string, maxWidth: real, f: Font) returns (r: Option<nat>)
    requires Forward(f)
    ensures r == Break(s, maxWidth, f)
  {
    if |s| == 0 {
      return None;
    }
    if Width(s, f) <= maxWidth {
      return None;
    }
    var goodPos := 0;
    var i := 0;
    while i < |s|
      invariant 0 <= i <= |s| && goodPos == (if i == 0 then 0 else i - 1)
      invariant i == 0 || Width(s[..goodPos], f) < maxWidth
    {
      if Width(s[..i], f) < maxWidth {
        goodPos := i;
      } else {
        break;
      }
      i := i + 1;
    }
    LongestIsLast(s, maxWidth, f, |s| - 1, goodPos);
    if goodPos == 0 {
      goodPos := 1;
    }
    ghost var g := goodPos;
    i := goodPos;
    while i > 0
      invariant 0 <= i <= g == goodPos
      invariant BackToWhite(s, g, i) == BackToWhite(s, g, g)
    {
      if White(At(s, i)) {
        goodPos := i;
        break;
      }
      i := i - 1;
    }
    r := Some(goodPos);
  }

  // ------------------------------------------------------------------ wrapping

  /** One line drawn, and the white space skipped after it. */
  datatype Piece = Piece(line: string, skipped: Option<char>)

  /** `overrun`: the scan stepped over the terminator and would read past the string. */
  datatype Wrapped = Wrapped(pieces: seq<Piece>, overrun: bool)

  function Cons(p: Piece, w: Wrapped): Wrapped { Wrapped([p] + w.pieces, w.overrun) }

  /** The text a piece stands for. */
  function TextOf(p: Piece): string { p.line + if p.skipped.Some? then [p.skipped.value] else [] }

  /** The first line: the whole string, the whole string and a step over the terminator, or `n` characters. */
  datatype Cut = Whole(piece: Piece) | Over(piece: Piece) | More(piece: Piece, n: nat)

  function FirstCut(s: string, w: real, f: Font): (r: Cut)
    ensures r.More? ==> 0 < r.n <= |s|
  {
    match Break(s, w, f)
    case None => Whole(Piece(s, None))
    case Some(b) =>
      if !White(At(s, b)) then More(Piece(s[..b], None), b)
      else if b == |s| then Over(Piece(s, None))
      else More(Piece(s[..b], Some(s[b])), b + 1)
  }

  lemma CutText(s: string, w: real, f: Font)
    ensures TextOf(FirstCut(s, w, f).piece) == if FirstCut(s, w, f).More? then s[..FirstCut(s, w, f).n] else s
  {
  }

  /** The loop of `drawWrappedString`: `w` is the room on this line, `later` on the ones after it. */
  function Wrap(s: string, w: real, later: real, f: Font): (r: Wrapped)
    decreases |s|
  {
    match FirstCut(s, w, f)
    case Whole(p) => Wrapped([p], false)
    case Over(p) => Wrapped([p], true)
    case More(p, n) => Cons(p, Wrap(s[n..], later, later, f))
  }

  function Rejoin(ps: seq<Piece>): string {
    if ps == [] then [] else TextOf(ps[0]) + Rejoin(ps[1..])
  }

  lemma {:induction false} RejoinCons(p: Piece, ps: seq<Piece>)
    ensures Rejoin([p] + ps) == TextOf(p) + Rejoin(ps)
  {
    assert ([p] + ps)[1..] == ps;
  }

  /** Nothing is lost: the lines, with the white space skipped between them, are the string. */
  lemma {:induction false} WrapRejoins(s: string, w: real, later: real, f: Font)
    ensures Rejoin(Wrap(s, w, later, f).pieces) == s
    decreases |s|
  {
    CutText(s, w, f);
    var cut := FirstCut(s, w, f);
    if cut.More? {
      WrapRejoins(s[cut.n..], later, later, f);
      RejoinCons(cut.piece, Wrap(s[cut.n..], later, later, f).pieces);
      assert s[..cut.n] + s[cut.n..] == s;
    } else {
      assert [cut.piece] == [cut.piece] + [];
      RejoinCons(cut.piece, []);
    }
  }

  predicate GlyphsFit(s: string, w: real, f: Font) {
    forall i :: 0 <= i < |s| ==> f(s[i]) <= w
  }

  /** Only white space is skipped; every line fits the room it was given. */
  ghost predicate LinesFit(ps: seq<Piece>, w: real, later: real, f: Font) {
    forall i :: 0 <= i < |ps| ==>
      && Width(ps[i].line, f) <= (if i == 0 then w else later)
      && (ps[i].skipped.Some? ==> White(ps[i].skipped.value))
  }

  lemma {:induction false} LongestFits(s: string, w: real, f: Font, i: nat)
    requires i <= |s|
    ensures Longest(s, w, f, i) == 0 || Width(s[..Longest(s, w, f, i)], f) < w
  {
    if i == 0 {
    } else {
      LongestFits(s, w, f, i - 1);
    }
  }

  /** A broken-off line fits when its first glyph does. */
  lemma BrokenLineFits(s: string, w: real, f: Font)
    requires Forward(f) && Break(s, w, f).Some? && f(s[0]) <= w
    ensures Width(s[..Break(s, w, f).value], f) <= w
  {
    var n, b := GoodPos(s, w, f), Break(s, w, f).value;
    LongestFits(s, w, f, |s| - 1);
    assert s[..1][..0] == [] && s[..1][0] == s[0];
    assert Width(s[..1], f) == Width([], f) + f(s[0]);
    assert Width(s[..n], f) <= w;
    WidthMonotone(s, f, b, n);
  }

  lemma ConsFits(p: Piece, ps: seq<Piece>, w: real, later: real, f: Font)
    requires Width(p.line, f) <= w && (p.skipped.Some? ==> White(p.skipped.value))
    requires LinesFit(ps, later, later, f)
    ensures LinesFit([p] + ps, w, later, f)
  {
    forall i | 0 <= i < |[p] + ps|
      ensures Width(([p] + ps)[i].line, f) <= (if i == 0 then w else later)
      ensures ([p] + ps)[i].skipped.Some? ==> White(([p] + ps)[i].skipped.value)
    {
      if i > 0 { assert ([p] + ps)[i] == ps[i - 1]; }
    }
  }

  /** If every glyph fits on every line, so does every line, and the scan stays inside the string. */
  lemma {:induction false} WrapFits(s: string, w: real, later: real, f: Font)
    requires Forward(f) && 0.0 <= w && 0.0 <= later && GlyphsFit(s, w, f) && GlyphsFit(s, later, f)
    ensures LinesFit(Wrap(s, w, later, f).pieces, w, later, f) && !Wrap(s, w, later, f).overrun
    decreases |s|
  {
    if Break(s, w, f).Some? {
      BrokenLineFits(s, w, f);
      assert s[..|s|] == s;
      var More(p, n) := FirstCut(s, w, f);
      WrapFits(s[n..], later, later, f);
      ConsFits(p, Wrap(s[n..], later, later, f).pieces, w, later, f);
    }
  }

  function Final(s: string): char
    requires s != []
  {
    s[|s| - 1]
  }

  lemma {:induction false} LastGlyphInWidth(s: string, f: Font)
    requires Forward(f) && s != []
    ensures Width(s, f) >= f(Final(s))
  {
    WidthMonotone(s, f, 0, |s| - 1);
    assert s[..0] == [];
  }

  /** Stepping over the terminator takes a last glyph wider than its line ... */
  lemma {:induction false} OverrunNeedsWideGlyph(s: string, w: real, later: real, f: Font)
    requires Wrap(s, w, later, f).overrun
    ensures s != [] && Width(s, f) > w && f(Final(s)) > (if |s| == 1 then w else later)
    decreases |s|
  {
    match FirstCut(s, w, f)
    case More(p, n) => OverrunNeedsWideGlyph(s[n..], later, later, f);
    case Over(p) => assert s[..0] == [];
  }

  /** ... and, when that glyph is not white space, nothing more. */
  lemma {:induction false} WideGlyphOverruns(s: string, w: real, later: real, f: Font)
    requires Forward(f) && s != [] && !White(Final(s)) && Width(s, f) > w
    requires f(Final(s)) > (if |s| == 1 then w else later)
    ensures Wrap(s, w, later, f).overrun
    decreases |s|
  {
    match FirstCut(s, w, f)
    case More(p, n) =>
      assert n < |s| && Final(s[n..]) == Final(s);
      LastGlyphInWidth(s[n..], f);
      WideGlyphOverruns(s[n..], later, later, f);
    case Over(p) =>
  }

  /** A single white-space character at the end is skipped at the last break, however wide it is. */
  lemma {:induction false} LastSpaceSkipped(s: string, w: real, later: real, f: Font)
    requires |s| >= 2 && White(Final(s)) && !White(s[|s| - 2])
    ensures !Wrap(s, w, later, f).overrun
    decreases |s|
  {
    match FirstCut(s, w, f)
    case Whole(_) =>
    case Over(_) =>
    case More(p, n) =>
      assert n != |s| - 1;
      if n < |s| { LastSpaceSkipped(s[n..], later, later, f); }
  }

  /** Where the last line starts. */
  function LastStart(s: string, w: real, later: real, f: Font): nat
    decreases |s|
  {
    match FirstCut(s, w, f)
    case More(_, n) => n + LastStart(s[n..], later, later, f)
    case _ => 0
  }

  /** Wrapping steps over the terminator exactly when the last line is the last glyph and too narrow for it. */
  lemma {:induction false} OverrunAtLastStart(s: string, w: real, later: real, f: Font)
    ensures Wrap(s, w, later, f).overrun
       <==> && s != [] && LastStart(s, w, later, f) == |s| - 1
            && f(Final(s)) > (if LastStart(s, w, later, f) == 0 then w else later)
    decreases |s|
  {
    match FirstCut(s, w, f)
    case More(_, n) =>
      OverrunAtLastStart(s[n..], later, later, f);
    case Over(_) => WidthOfOne(s, f);
    case Whole(_) => if |s| == 1 { WidthOfOne(s, f); }
  }

  lemma {:induction false} WidthOfOne(s: string, f: Font)
    requires |s| == 1
    ensures Width(s, f) == f(Final(s))
  {
    assert s[..0] == [];
  }

  /**
    The exact condition: for every string in terms of where its last line starts; and, for
    every string that does not end in two white-space characters, in terms of the text alone:
    it has to be broken, its last glyph is wider than the room on its line, and that glyph is
    not a space to skip.
  */
  lemma {:induction false} OverrunExactly(s: string, w: real, later: real, f: Font)
    requires Forward(f)
    ensures Wrap(s, w, later, f).overrun
       <==> && s != [] && LastStart(s, w, later, f) == |s| - 1
            && f(Final(s)) > (if LastStart(s, w, later, f) == 0 then w else later)
    ensures |s| < 2 || !White(Final(s)) || !White(s[|s| - 2]) ==>
      (Wrap(s, w, later, f).overrun
       <==> && s != [] && Width(s, f) > w
            && f(Final(s)) > (if |s| == 1 then w else later)
            && (|s| == 1 || !White(Final(s))))
  {
    OverrunAtLastStart(s, w, later, f);
    if |s| < 2 || !White(Final(s)) || !White(s[|s| - 2]) { OverrunFromText(s, w, later, f); }
  }

  lemma {:induction false} OverrunFromText(s: string, w: real, later: real, f: Font)
    requires Forward(f) && (|s| >= 2 ==> !White(Final(s)) || !White(s[|s| - 2]))
    ensures Wrap(s, w, later, f).overrun
       <==> && s != [] && Width(s, f) > w
            && f(Final(s)) > (if |s| == 1 then w else later)
            && (|s| == 1 || !White(Final(s)))
  {
    if Wrap(s, w, later, f).overrun { OverrunNeedsWideGlyph(s, w, later, f); }
    if |s| >= 2 && White(Final(s)) {
      LastSpaceSkipped(s, w, later, f);
    } else if |s| == 1 {
      OneGlyph(s, w, later, f);
    } else if s != [] && Width(s, f) > w && f(Final(s)) > later {
      WideGlyphOverruns(s, w, later, f);
    }
  }

  /** One glyph that does not fit: its break is the terminator. */
  lemma OneGlyph(s: string, w: real, later: real, f: Font)
    requires |s| == 1
    ensures Wrap(s, w, later, f).overrun <==> Width(s, f) > w
  {
  }

  // ----------------------------------------------------------- drawWrappedString

  /** The C string that starts at `i`. */
  function CString(m: seq<char>, i: nat): string
    decreases |m| - i
  {
    if i >= |m| || m[i] == '\0' then [] else [m[i]] + CString(m, i + 1)
  }

  /** `String8` text: no terminator inside. */
  predicate Text(s: string) { '\0' !in s }

  /** Up to the first terminator at `p`, the C string at `i` is the slice between. */
  lemma {:induction false} CStringSlice(m: seq<char>, i: nat, p: nat)
    requires i <= p < |m| && m[p] == '\0' && '\0' !in m[i..p]
    ensures CString(m, i) == m[i..p]
    decreases p - i
  {
    if i < p {
      assert m[i..p][0] == m[i] && m[i..p][1..] == m[i + 1..p];
      CStringSlice(m, i + 1, p);
    }
  }

  /** The renderer's fields, with the font they describe at the current scale. */
  datatype Screen = Screen(width: nat, height: nat, border: real, indentMult: real, k: scale, font: Font)

  function LineHeight(c: Screen): real { 34.0 * c.k }

  function Indent(c: Screen): real { c.indentMult * c.k }

  /** The vertical position `n` lines below `y`, line by line and at once. */
  function Below(y: real, n: nat, height: real): real {
    if n == 0 then y else Below(y, n - 1, height) + height
  }

  function Down(y: real, n: nat, height: real): real { y + n as real * height }

  lemma {:induction false} BelowIs(y: real, n: nat, height: real)
    ensures Below(y, n, height) == Down(y, n, height)
  {
    if n == 0 {
    } else {
      BelowIs(y, n - 1, height);
      assert n as real * height == (n - 1) as real * height + height;
    }
  }

  lemma DownNone(y: real, height: real)
    ensures Down(y, 0, height) == y
  {
  }

  function AtLeast(x: real, least: real): real { if x < least then least else x }

  function Room(c: Screen, x: real): real { c.width as real - c.border - x }

  function Lines(ps: seq<Piece>): (r: seq<string>)
    ensures |r| == |ps| && forall i :: 0 <= i < |r| ==> r[i] == ps[i].line
  {
    seq(|ps|, i requires 0 <= i < |ps| => ps[i].line)
  }

  /** What `drawWrappedString` draws: nothing on an unusable screen, one line if it fits, else the wrapped pieces. */
  function Drawn(c: Screen, xpos: real, str: string): Wrapped {
    var x := AtLeast(xpos, c.border);
    if c.width == 0 || c.height == 0 || Room(c, x) < 1.0 then Wrapped([], false)
    else DrawnIn(str, Room(c, x), Room(c, x + Indent(c)), c.font)
  }

  function DrawnIn(str: string, w: real, later: real, f: Font): Wrapped {
    if Width(str, f) <= w.Floor as real then Wrapped([Piece(str, None)], false) else Wrap(str, w, later, f)
  }

  /** Pieces already drawn, then the ones still to come. */
  function After(ps: seq<Piece>, w: Wrapped): Wrapped { Wrapped(ps + w.pieces, w.overrun) }

  lemma AfterCons(ps: seq<Piece>, p: Piece, w: Wrapped)
    ensures After(ps, Cons(p, w)) == After(ps + [p], w)
  {
    assert ps + ([p] + w.pieces) == (ps + [p]) + w.pieces;
  }

  /** `strdup`. */
  method Duplicate(str: string) returns (a: array<char>)
    ensures fresh(a) && a[..] == str + ['\0']
  {
    a := new char[|str| + 1](i requires 0 <= i <= |str| => At(str, i));
  }

  /** Cut the text at `b`, take the line, and restore the character. */
  method CutLine(mangle: array<char>, start: nat, b: nat, ghost str: string) returns (line: string, ch: char)
    requires Text(str) && start <= b <= |str| && mangle[..] == str + ['\0']
    modifies mangle
    ensures mangle[..] == old(mangle[..])
    ensures line == str[start..b] && ch == At(str, b)
  {
    ghost var text := mangle[..];
    ch := mangle[b];
    mangle[b] := '\0';
    ghost var cut := text[b := '\0'];
    assert mangle[..] == cut && cut[start..b] == str[start..b];
    CStringSlice(cut, start, b);
    line := CString(mangle[..], start);
    mangle[b] := ch;
    assert mangle[..] == text;
  }

  /** The text from `start` on, read from the copy. */
  method Remaining(mangle: array<char>, start: nat, ghost str: string) returns (rest: string)
    requires Text(str) && start <= |str| && mangle[..] == str + ['\0']
    ensures rest == str[start..]
  {
    ghost var text := mangle[..];
    assert text[start..|str|] == str[start..];
    CStringSlice(text, start, |str|);
    rest := CString(mangle[..], start);
  }

  /** One turn of the loop on the copy: find the break, cut the line, restore the text. */
  method OneLine(mangle: array<char>, start: nat, w: real, f: Font, ghost str: string) returns (cut: Cut)
    requires Forward(f) && Text(str) && start <= |str| && mangle[..] == str + ['\0']
    modifies mangle
    ensures mangle[..] == old(mangle[..])
    ensures cut == FirstCut(str[start..], w, f)
  {
    var rest := Remaining(mangle, start, str);
    var brk := BreakString(rest, w, f);
    if brk.None? {
      return Whole(Piece(rest, None));
    }
    var b := brk.value;
    var line, ch := CutLine(mangle, start, start + b, str);
    assert line == rest[..b] && ch == At(rest, b);
    if !White(ch) {
      cut := More(Piece(line, None), b);
    } else if b == |rest| {
      assert line == rest;
      cut := Over(Piece(line, None));
    } else {
      cut := More(Piece(line, Some(ch)), b + 1);
    }
  }

  /** The loop as a function of the pieces drawn so far. */
  function WrapOn(done: seq<Piece>, s: string, w: real, later: real, f: Font): Wrapped
    decreases |s|
  {
    var cut := FirstCut(s, w, f);
    if cut.More? then WrapOn(done + [cut.piece], s[cut.n..], later, later, f)
    else Wrapped(done + [cut.piece], cut.Over?)
  }

  lemma WrapOnStep(done: seq<Piece>, s: string, w: real, later: real, f: Font, cut: Cut)
    requires cut == FirstCut(s, w, f)
    ensures WrapOn(done, s, w, later, f)
         == if cut.More? then WrapOn(done + [cut.piece], s[cut.n..], later, later, f) else Wrapped(done + [cut.piece], cut.Over?)
  {
  }

  lemma {:induction false} WrapOnIs(done: seq<Piece>, s: string, w: real, later: real, f: Font)
    ensures WrapOn(done, s, w, later, f) == After(done, Wrap(s, w, later, f))
    decreases |s|
  {
    var cut := FirstCut(s, w, f);
    if cut.More? {
      WrapOnIs(done + [cut.piece], s[cut.n..], later, later, f);
      AfterCons(done, cut.piece, Wrap(s[cut.n..], later, later, f));
    }
  }

  /** The loop, on a private copy of the text in which each break is overwritten and restored. */
  method WrapLoop(str: string, w: real, later: real, f: Font) returns (pieces: seq<Piece>, overrun: bool)
    requires Forward(f) && Text(str)
    ensures Wrapped(pieces, overrun) == WrapOn([], str, w, later, f)
  {
    var mangle := Duplicate(str);
    pieces, overrun := [], false;
    var start, room := 0, w;
    ghost var rest, target := str, WrapOn([], str, w, later, f);
    while true
      invariant mangle[..] == str + ['\0'] && 0 <= start <= |str| && rest == str[start..]
      invariant WrapOn(pieces, rest, room, later, f) == target
      decreases |str| - start
    {
      var cut := OneLine(mangle, start, room, f, str);
      WrapOnStep(pieces, rest, room, later, f, cut);
      pieces := pieces + [cut.piece];
      if !cut.More? {
        overrun := cut.Over?;
        return;
      }
      rest := rest[cut.n..];
      start, room := start + cut.n, later;
    }
  }

  /** Each line drawn moves the pen down by one line. */
  method MoveDown(y0: real, lines: nat, height: real) returns (y: real)
    ensures y == Down(y0, lines, height)
  {
    BelowIs(y0, lines, height);
    y := y0;
    for i := 0 to lines
      invariant y == Below(y0, i, height)
    {
      y := y + height;
    }
  }

  method DrawIn(str: string, w: real, later: real, f: Font) returns (lines: seq<string>, overrun: bool)
    requires Text(str) && Forward(f)
    ensures lines == Lines(DrawnIn(str, w, later, f).pieces) && overrun == DrawnIn(str, w, later, f).overrun
  {
    if Width(str, f) <= w.Floor as real {
      return [str], false;
    }
    var pieces;
    pieces, overrun := WrapLoop(str, w, later, f);
    WrapOnIs([], str, w, later, f);
    lines := Lines(pieces);
  }

  method DrawWrappedString(c: Screen, xpos: real, ypos: real, str: string)
    returns (lines: seq<string>, y: real, overrun: bool)
    requires Text(str) && Forward(c.font)
    ensures lines == Lines(Drawn(c, xpos, str).pieces) && overrun == Drawn(c, xpos, str).overrun
    ensures c.width == 0 || c.height == 0 ==> y == ypos
    ensures c.width != 0 && c.height != 0 ==> y == Down(AtLeast(ypos, c.border), |lines|, LineHeight(c))
  {
    hide Down, DrawnIn, Wrap;
    DownNone(AtLeast(ypos, c.border), LineHeight(c));
    lines, y, overrun := [], ypos, false;
    if c.width == 0 || c.height == 0 {
      return;
    }
    var x := xpos;
    if x < c.border { x := c.border; }
    if y < c.border { y := c.border; }
    var room := Room(c, x);
    if room < 1.0 {
      return;
    }
    lines, overrun := DrawIn(str, room, Room(c, x + Indent(c)), c.font);
    y := MoveDown(y, |lines|, LineHeight(c));
  }

  lemma {:induction false} OneLineDrawn(str: string, w: real, later: real, f: Font)
    requires Width(str, f) <= w.Floor as real
    ensures LinesFit([Piece(str, None)], w, later, f) && Rejoin([Piece(str, None)]) == str
  {
    assert [Piece(str, None)] == [Piece(str, None)] + [];
    RejoinCons(Piece(str, None), []);
  }

  lemma IndentNarrows(c: Screen, x: real)
    requires c.indentMult >= 0.0
    ensures Room(c, x + Indent(c)) <= Room(c, x)
  {
    Product(c.indentMult, c.k);
  }

  /**
    On a screen whose indented line is at least as wide as every glyph, every string is
    drawn without reading past its end, every line fits, and the pieces rejoin to the string.
  */
  lemma WideScreenWraps(c: Screen, xpos: real, str: string)
    requires c.width > 0 && c.height > 0 && c.indentMult >= 0.0 && Forward(c.font)
    requires Room(c, AtLeast(xpos, c.border)) >= 1.0
    requires Room(c, AtLeast(xpos, c.border) + Indent(c)) >= 0.0
    requires forall ch :: c.font(ch) <= Room(c, AtLeast(xpos, c.border) + Indent(c))
    ensures
      var x, d := AtLeast(xpos, c.border), Drawn(c, xpos, str);
      !d.overrun && Rejoin(d.pieces) == str && LinesFit(d.pieces, Room(c, x), Room(c, x + Indent(c)), c.font)
  {
    var x := AtLeast(xpos, c.border);
    IndentNarrows(c, x);
    WrapsWhenWide(str, Room(c, x), Room(c, x + Indent(c)), c.font);
  }

  lemma WrapsWhenWide(str: string, w: real, later: real, f: Font)
    requires Forward(f) && 0.0 <= later <= w && forall ch :: f(ch) <= later
    ensures
      var r := DrawnIn(str, w, later, f);
      !r.overrun && Rejoin(r.pieces) == str && LinesFit(r.pieces, w, later, f)
  {
    if Width(str, f) <= w.Floor as real {
      OneLineDrawn(str, w, later, f);
    } else {
      WrapFits(str, w, later, f);
      WrapRejoins(str, w, later, f);
    }
  }

  lemma Product(a: real, b: real)
    requires a >= 0.0 && b >= 0.0
    ensures a * b >= 0.0
  {
  }

  /** One glyph of twenty-one pixels on an eleven-pixel line: the terminator is stepped over. */
  lemma NarrowScreenOverruns()
    ensures var f: Font := (ch: char) => 21.0; Wrap("m", 11.0, 11.0, f).overrun
  {
    var f: Font := (ch: char) => 21.0;
    assert "m"[..0] == [];
    OverrunExactly("m", 11.0, 11.0, f);
  }
}
