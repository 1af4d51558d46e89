/**
  The sample loop of `muxing` in cmds/stagefright/muxer.cpp: samples of selected tracks
  are copied to the muxer, and with trimming on only those between a sync sample inside
  the window and the end of the window, with times counted from that sync sample.
*/
module Muxer {
  import opened Basics

  /** `mapped`: the muxer accepted the sample's track. */
  datatype Sample = Sample(timeUs: int, sync: bool, mapped: bool)

  /** A sample handed to the muxer: which one, and the time written. */
  datatype Written = Written(sample: Sample, timeUs: int)

  datatype Window = Window(enableTrim: bool, startUs: int, endUs: int)

  datatype Trim = Trim(started: bool, offsetUs: int, out: seq<Written>)

  const Begin := Trim(false, 0, [])

  predicate Opens(w: Window, s: Sample) { s.sync && w.startUs < s.timeUs <= w.endUs }

  /** One turn of the loop for a sample of a mapped track. */
  function Step(w: Window, t: Trim, s: Sample): Trim {
    var opens := w.enableTrim && Opens(w, s);
    var offset := if opens && !t.started then s.timeUs else t.offsetUs;
    var started := (t.started || opens) && !(w.enableTrim && s.timeUs > w.endUs);
    Trim(started, offset, if !w.enableTrim || started then t.out + [Written(s, s.timeUs - offset)] else t.out)
  }

  function Run(w: Window, ss: seq<Sample>): Trim {
    if ss == [] then Begin else Step(w, Run(w, ss[..|ss| - 1]), ss[|ss| - 1])
  }

  /** The samples of mapped tracks, in order. */
  function Mapped(ss: seq<Sample>): seq<Sample> {
    if ss == [] then []
    else if ss[|ss| - 1].mapped then Mapped(ss[..|ss| - 1]) + [ss[|ss| - 1]]
    else Mapped(ss[..|ss| - 1])
  }

  lemma {:induction false} RunAppend(w: Window, ss: seq<Sample>, s: Sample)
    ensures Run(w, ss + [s]) == Step(w, Run(w, ss), s)
  {
    assert (ss + [s])[..|ss|] == ss;
  }

  lemma MappedNext(ss: seq<Sample>, i: nat)
    requires i < |ss|
    ensures Mapped(ss[..i + 1]) == if ss[i].mapped then Mapped(ss[..i]) + [ss[i]] else Mapped(ss[..i])
  {
    assert ss[..i + 1][..i] == ss[..i];
  }

  /** The body of the loop for a sample of a mapped track. */
  method Copy(w: Window, s: Sample, started: bool, offsetUs: int, out: seq<Written>)
    returns (started': bool, offsetUs': int, out': seq<Written>)
    ensures Trim(started', offsetUs', out') == Step(w, Trim(started, offsetUs, out), s)
  {
    started', offsetUs', out' := started, offsetUs, out;
    if s.sync {
      if w.enableTrim && s.timeUs > w.startUs && s.timeUs <= w.endUs {
        if !started' {
          offsetUs' := s.timeUs;
        }
        started' := true;
      }
    }
    if w.enableTrim && s.timeUs > w.endUs {
      started' := false;
    }
    if !w.enableTrim || started' {
      out' := out' + [Written(s, s.timeUs - offsetUs')];
    }
  }

  method Mux(w: Window, ss: seq<Sample>) returns (out: seq<Written>)
    ensures out == Run(w, Mapped(ss)).out
  {
    hide Step;
    var trimStarted, trimOffsetUs := false, 0;
    out := [];
    for i := 0 to |ss|
      invariant Trim(trimStarted, trimOffsetUs, out) == Run(w, Mapped(ss[..i]))
    {
      MappedNext(ss, i);
      if ss[i].mapped {
        RunAppend(w, Mapped(ss[..i]), ss[i]);
        trimStarted, trimOffsetUs, out := Copy(w, ss[i], trimStarted, trimOffsetUs, out);
      }
    }
    assert ss[..|ss|] == ss;
  }

  // -------------------------------------------------------------- any sample times

  /** No sample from `i` on is after the end of the window. */
  predicate Inside(w: Window, ss: seq<Sample>, i: nat) {
    forall j :: i <= j < |ss| ==> ss[j].timeUs <= w.endUs
  }

  /**
    For samples in any order of time: copying is on after a sample exactly when some earlier
    sync sample opened the window and no sample since then was after its end.
  */
  lemma {:induction false} OnExactlyWhen(w: Window, ss: seq<Sample>)
    requires w.enableTrim
    ensures Run(w, ss).started <==> exists i: nat :: i < |ss| && Opens(w, ss[i]) && Inside(w, ss, i)
  {
    if ss == [] {
    } else {
      var n := |ss| - 1;
      var front := ss[..n];
      OnExactlyWhen(w, front);
      if Run(w, ss).started {
        if Opens(w, ss[n]) {
          assert Inside(w, ss, n);
        } else {
          var i: nat :| i < n && Opens(w, front[i]) && Inside(w, front, i);
          assert Inside(w, ss, i) by { assert forall j :: i <= j < n ==> ss[j] == front[j]; }
        }
      }
      if i: nat :| i < |ss| && Opens(w, ss[i]) && Inside(w, ss, i) {
        if i < n {
          assert front[i] == ss[i];
          assert Inside(w, front, i) by { assert forall j :: i <= j < n ==> ss[j] == front[j]; }
        }
        assert ss[n].timeUs <= w.endUs;
      }
    }
  }

  lemma {:induction false} NoTrimCopiesAll(w: Window, ss: seq<Sample>)
    requires !w.enableTrim
    ensures
      var t := Run(w, ss);
      && !t.started && t.offsetUs == 0 && |t.out| == |ss|
      && forall i :: 0 <= i < |ss| ==> t.out[i] == Written(ss[i], ss[i].timeUs)
  {
    if ss == [] {
    } else {
      NoTrimCopiesAll(w, ss[..|ss| - 1]);
    }
  }

  // ------------------------------------------------------- nondecreasing sample times

  ghost predicate Ordered(ss: seq<Sample>) { forall i, j :: 0 <= i <= j < |ss| ==> ss[i].timeUs <= ss[j].timeUs }

  /** The first sync sample inside the window. */
  function First(w: Window, ss: seq<Sample>): (r: Option<nat>)
    ensures r.Some? ==> r.value < |ss| && Opens(w, ss[r.value]) && forall i :: 0 <= i < r.value ==> !Opens(w, ss[i])
    ensures r.None? ==> forall i :: 0 <= i < |ss| ==> !Opens(w, ss[i])
  {
    if ss == [] then None
    else
      var r := First(w, ss[..|ss| - 1]);
      if r.Some? then r else if Opens(w, ss[|ss| - 1]) then Some(|ss| - 1) else None
  }

  /** How many samples are not after the end of the window. */
  function Upto(w: Window, ss: seq<Sample>): (n: nat)
    ensures n <= |ss|
  {
    if ss == [] then 0 else Upto(w, ss[..|ss| - 1]) + if ss[|ss| - 1].timeUs <= w.endUs then 1 else 0
  }

  lemma {:induction false} UptoSplits(w: Window, ss: seq<Sample>)
    requires Ordered(ss)
    ensures forall i :: 0 <= i < |ss| ==> (ss[i].timeUs <= w.endUs <==> i < Upto(w, ss))
  {
    if ss == [] {
    } else {
      UptoSplits(w, ss[..|ss| - 1]);
    }
  }

  /** The contiguous run from `i` to `n`, with times counted from sample `i`. */
  function Excerpt(ss: seq<Sample>, i: nat, n: nat): (r: seq<Written>)
    requires i < n <= |ss|
    ensures |r| == n - i
    ensures forall k :: 0 <= k < |r| ==> r[k] == Written(ss[i + k], ss[i + k].timeUs - ss[i].timeUs)
  {
    seq(n - i, k requires 0 <= k < n - i => Written(ss[i + k], ss[i + k].timeUs - ss[i].timeUs))
  }

  /** The state of the loop, spelled out without the loop. */
  ghost predicate Trimmed(w: Window, ss: seq<Sample>, t: Trim) {
    match First(w, ss)
    case None => !t.started && t.out == []
    case Some(i) =>
      && i < Upto(w, ss) && t.out == Excerpt(ss, i, Upto(w, ss))
      && (t.started <==> Upto(w, ss) == |ss|)
      && (t.started ==> t.offsetUs == ss[i].timeUs)
  }

  lemma ExcerptGrows(ss: seq<Sample>, i: nat, n: nat)
    requires i < n <= |ss| - 1
    ensures Excerpt(ss[..|ss| - 1], i, n) == Excerpt(ss, i, n)
    ensures Excerpt(ss, i, n + 1) == Excerpt(ss, i, n) + [Written(ss[n], ss[n].timeUs - ss[i].timeUs)]
  {
  }

  lemma FirstNext(w: Window, ss: seq<Sample>)
    requires ss != []
    ensures
      var r := First(w, ss[..|ss| - 1]);
      First(w, ss) == if r.Some? then r else if Opens(w, ss[|ss| - 1]) then Some(|ss| - 1) else None
  {
  }

  lemma UptoNext(w: Window, ss: seq<Sample>)
    requires ss != []
    ensures Upto(w, ss) == Upto(w, ss[..|ss| - 1]) + if ss[|ss| - 1].timeUs <= w.endUs then 1 else 0
  {
  }

  /** A sample after the end switches copying off for good ... */
  lemma StepOutside(w: Window, ss: seq<Sample>, t: Trim)
    requires w.enableTrim && ss != [] && ss[|ss| - 1].timeUs > w.endUs
    requires Trimmed(w, ss[..|ss| - 1], t)
    ensures Trimmed(w, ss, Step(w, t, ss[|ss| - 1]))
  {
    hide First, Upto;
    FirstNext(w, ss);
    UptoNext(w, ss);
    if First(w, ss).Some? {
      ExcerptGrows(ss, First(w, ss).value, Upto(w, ss));
    }
  }

  /** ... and one inside the window is copied as soon as a sync sample has opened it. */
  lemma {:induction false} StepInside(w: Window, ss: seq<Sample>, t: Trim)
    requires w.enableTrim && ss != [] && ss[|ss| - 1].timeUs <= w.endUs
    requires Upto(w, ss[..|ss| - 1]) == |ss| - 1
    requires Trimmed(w, ss[..|ss| - 1], t)
    ensures Trimmed(w, ss, Step(w, t, ss[|ss| - 1]))
  {
    hide First, Upto;
    FirstNext(w, ss);
    UptoNext(w, ss);
    var n := |ss| - 1;
    if First(w, ss).Some? {
      if First(w, ss).value < n {
        ExcerptGrows(ss, First(w, ss).value, n);
      } else {
        assert Excerpt(ss, n, n + 1) == [Written(ss[n], 0)];
      }
    }
  }

  lemma {:induction false} TrimmedAlways(w: Window, ss: seq<Sample>)
    requires w.enableTrim && Ordered(ss)
    ensures Trimmed(w, ss, Run(w, ss))
  {
    if ss == [] {
    } else {
      var front := ss[..|ss| - 1];
      TrimmedAlways(w, front);
      UptoSplits(w, front);
      if ss[|ss| - 1].timeUs <= w.endUs {
        if front != [] { assert front[|front| - 1].timeUs <= w.endUs; }
        StepInside(w, ss, Run(w, front));
      } else {
        StepOutside(w, ss, Run(w, front));
      }
    }
  }

  /**
    Main theorem, for samples in order of time with trimming on: what is written is exactly
    the contiguous run from the first sync sample inside the window to the last sample not
    after its end; written times start at zero, keep the spacing of the input and stay below
    the length of the window; and if no sync sample is inside, nothing is written.
  */
  lemma {:induction false} TrimmedOutput(w: Window, ss: seq<Sample>)
    requires w.enableTrim && Ordered(ss)
    ensures
      var out := Run(w, ss).out;
      match First(w, ss)
      case None => out == []
      case Some(i) =>
        && i < Upto(w, ss) && out == Excerpt(ss, i, Upto(w, ss)) && out[0].timeUs == 0
        && (forall k :: 0 <= k < |out| ==> 0 <= out[k].timeUs < w.endUs - w.startUs)
        && (forall j, k :: 0 <= j < k < |out| ==> out[k].timeUs - out[j].timeUs == ss[i + k].timeUs - ss[i + j].timeUs)
        && (forall j :: Upto(w, ss) <= j < |ss| ==> ss[j].timeUs > w.endUs)
  {
    TrimmedAlways(w, ss);
    UptoSplits(w, ss);
  }

  // ---------------------------------------------------------------- track selection

  /** What the MIME type of a track begins with. */
  datatype Kind = Audio | Video | Other

  datatype Track = Track(kind: Kind, durationUs: int)

  /** The tracks the loop selects: the first wanted audio track and the first wanted video track. */
  predicate Selected(useAudio: bool, useVideo: bool, ts: seq<Track>, i: nat)
    requires i < |ts|
  {
    || (useAudio && ts[i].kind.Audio? && forall j :: 0 <= j < i ==> !ts[j].kind.Audio?)
    || (useVideo && ts[i].kind.Video? && forall j :: 0 <= j < i ==> !ts[j].kind.Video?)
  }

  /** A start after the end of a selected track falls back to zero. */
  method CorrectStart(useAudio: bool, useVideo: bool, ts: seq<Track>, w: Window) returns (startUs: int)
    ensures startUs == (if w.enableTrim && exists i :: 0 <= i < |ts| && Selected(useAudio, useVideo, ts, i) && ts[i].durationUs < w.startUs
                        then 0 else w.startUs)
  {
    startUs := w.startUs;
    var haveAudio, haveVideo := false, false;
    for i := 0 to |ts|
      invariant haveAudio <==> useAudio && exists j :: 0 <= j < i && ts[j].kind.Audio?
      invariant haveVideo <==> useVideo && exists j :: 0 <= j < i && ts[j].kind.Video?
      invariant startUs == (if w.enableTrim && exists j :: 0 <= j < i && Selected(useAudio, useVideo, ts, j) && ts[j].durationUs < w.startUs
                            then 0 else w.startUs)
    {
      if useAudio && !haveAudio && ts[i].kind.Audio? {
        haveAudio := true;
      } else if useVideo && !haveVideo && ts[i].kind.Video? {
        haveVideo := true;
      } else {
        continue;
      }
      assert Selected(useAudio, useVideo, ts, i);
      if w.enableTrim {
        if startUs > ts[i].durationUs {
          startUs := 0;
        }
      }
    }
  }
}
