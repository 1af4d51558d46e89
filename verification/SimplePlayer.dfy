/**
  The player of cmds/stagefright/SimplePlayer.cpp: one looper thread handles messages.
  While started, it keeps exactly one "do more stuff" message alive; a generation
  counter makes older ones harmless.  Each track borrows input and output buffers
  from its codec and gives them back.

  The codec, the extractor and the audio track are an environment: `Work` lists what
  they answer.  An answer the environment cannot give (a buffer the codec does not
  own, a sample for an unknown track) ends the drain just as an error would.
*/
module SimplePlayerModel {
  import opened Basics

  const OK := 0
  const INVALID_OPERATION := -38

  // ------------------------------------------------------------------ tracks

  datatype BufferInfo = BufferInfo(index: nat, offset: nat, size: nat, presentationTimeUs: int)

  /** `bytes` counts what was written to the audio track since it was created. */
  datatype Audio = Audio(frameCount: uint32, frameSize: positive, written: nat, played: nat, bytes: nat)

  datatype Track = Track(
    inputs: nat,                 // number of input buffers of the codec
    outputs: nat,                // number of output buffers of the codec
    codecIn: set<nat>,           // input buffers the codec owns
    codecOut: set<nat>,          // output buffers the codec owns
    availIn: seq<nat>,           // mAvailInputBufferIndices
    availOut: seq<BufferInfo>,   // mAvailOutputBufferInfos
    audio: Option<Audio>,
    dequeued: seq<BufferInfo>,   // every output buffer obtained, in order
    released: seq<BufferInfo>,   // every output buffer given back, in order
    whole: bool)                 // all buffers meant for the current audio track were whole frames

  datatype OutputAnswer =
    | Ready(info: BufferInfo)
    | FormatChanged(isAudio: bool, frameCount: uint32, frameSize: positive)
    | BuffersChanged

  function NewTrack(inputs: nat, outputs: nat): Track {
    Track(inputs, outputs, Range(inputs), Range(outputs), [], [], None, [], [], true)
  }

  /** Ownership: with the codec, or in the list, exactly one of the two and only once. */
  ghost predicate PlacedOnce(codec: set<nat>, list: seq<nat>, count: nat, i: nat) {
    (if i in codec then 1 else 0) + Times(list, i) == if i < count then 1 else 0
  }

  function Indices(infos: seq<BufferInfo>): (r: seq<nat>)
    ensures |r| == |infos|
    ensures forall k :: 0 <= k < |r| ==> r[k] == infos[k].index
  {
    if infos == [] then [] else [infos[0].index] + Indices(infos[1..])
  }

  /** `b` is `a` after some of its bytes were played: nothing lost, nothing repeated. */
  predicate Progress(a: BufferInfo, b: BufferInfo) {
    && a.index == b.index && a.presentationTimeUs == b.presentationTimeUs
    && a.offset <= b.offset && a.offset + a.size == b.offset + b.size
  }

  /** First in, first out: given back, then still held, is exactly what was obtained. */
  ghost predicate Fifo(t: Track) {
    && |t.dequeued| == |t.released| + |t.availOut|
    && forall k :: 0 <= k < |t.dequeued| ==> Progress(t.dequeued[k], (t.released + t.availOut)[k])
  }

  /** Frame counting is exact and the track is never overfilled. */
  ghost predicate AudioExact(a: Audio) {
    && a.bytes == a.written * a.frameSize
    && a.played <= a.written <= a.played + a.frameCount
  }

  ghost predicate TrackOk(t: Track) {
    && (forall i: nat :: PlacedOnce(t.codecIn, t.availIn, t.inputs, i))
    && (forall i: nat :: PlacedOnce(t.codecOut, Indices(t.availOut), t.outputs, i))
    && Fifo(t)
    && (t.whole && t.audio.Some? ==> AudioExact(t.audio.value) && WholeFrames(t.availOut, t.audio.value.frameSize))
  }

  // ------------------------------------------------- draining the codec, 423-465

  function TakeInput(t: Track, i: nat): Track {
    t.(codecIn := t.codecIn - {i}, availIn := t.availIn + [i])
  }

  function DrainInputs(t: Track, answers: seq<nat>): Track
    decreases |answers|
  {
    if answers == [] || answers[0] !in t.codecIn then t
    else DrainInputs(TakeInput(t, answers[0]), answers[1..])
  }

  predicate WholeFrames(infos: seq<BufferInfo>, frameSize: positive) {
    forall k :: 0 <= k < |infos| ==> infos[k].size % frameSize == 0
  }

  function TakeOutput(t: Track, a: OutputAnswer): Track {
    match a
    case Ready(info) =>
      t.(codecOut := t.codecOut - {info.index}, availOut := t.availOut + [info], dequeued := t.dequeued + [info],
         whole := t.whole && (t.audio.Some? ==> info.size % t.audio.value.frameSize == 0))
    case FormatChanged(isAudio, frameCount, frameSize) =>
      if isAudio then t.(audio := Some(Audio(frameCount, frameSize, 0, 0, 0)), whole := WholeFrames(t.availOut, frameSize)) else t
    case BuffersChanged => t
  }

  predicate Refused(t: Track, a: OutputAnswer) { a.Ready? && a.info.index !in t.codecOut }

  function DrainOutputs(t: Track, answers: seq<OutputAnswer>): Track
    decreases |answers|
  {
    if answers == [] || Refused(t, answers[0]) then t
    else DrainOutputs(TakeOutput(t, answers[0]), answers[1..])
  }

  // ---------------------------------------------------- feeding the codec, 468-510

  function GiveInput(t: Track): Track
    requires t.availIn != []
  {
    t.(codecIn := t.codecIn + {t.availIn[0]}, availIn := t.availIn[1..])
  }

  function Feed(ts: seq<Track>, samples: seq<nat>): (r: seq<Track>)
    ensures |r| == |ts|
    decreases |samples|
  {
    if samples == [] || samples[0] >= |ts| || ts[samples[0]].availIn == [] then ts
    else Feed(ts[samples[0] := GiveInput(ts[samples[0]])], samples[1..])
  }

  // ------------------------------------------------------------ rendering, 518-650

  /** What the audio track may report: it never goes back and never passes the whole frames it was given. */
  function Position(a: Audio, p: nat): nat {
    var given := Quotient(a.bytes, a.frameSize);
    if p < a.played || given < a.played then a.played else if p > given then given else p
  }

  /** `uint32_t` arithmetic: the difference is taken modulo 2^32. */
  function FramesAvailable(a: Audio): nat {
    (a.frameCount - (a.written - a.played)) % 0x1_0000_0000
  }

  function Product(frames: nat, frameSize: positive): nat { frames * frameSize }

  function Quotient(bytes: nat, frameSize: positive): nat { bytes / frameSize }

  function RenderAudio(a0: Audio, info: BufferInfo, p: nat): (Audio, BufferInfo)
  {
    var a := a0.(played := Position(a0, p));
    var room := Product(FramesAvailable(a), a.frameSize);
    var copy := if info.size > room then room else info.size;
    if copy == 0 then (a, info)
    else (a.(written := a.written + Quotient(copy, a.frameSize), bytes := a.bytes + copy),
          info.(offset := info.offset + copy, size := info.size - copy))
  }

  function ReleaseFront(t: Track): Track
    requires t.availOut != []
  {
    t.(codecOut := t.codecOut + {t.availOut[0].index}, availOut := t.availOut[1..], released := t.released + [t.availOut[0]])
  }

  datatype Verdict = Early | Due | Late

  function Classify(info: BufferInfo, nowUs: int, startUs: int): Verdict {
    var lateByUs := nowUs - (info.presentationTimeUs + startUs);
    if lateByUs <= -10000 then Early else if lateByUs > 30000 then Late else Due
  }

  /** Play the front buffer; the second result says whether it is finished. */
  function PlayFront(t: Track, p: nat): (Track, bool)
    requires t.availOut != []
  {
    if t.audio.None? then (t, true)
    else
      var (a, info) := RenderAudio(t.audio.value, t.availOut[0], p);
      (t.(audio := Some(a), availOut := t.availOut[0 := info]), info.size == 0)
  }

  function Render(t: Track, nowUs: int, startUs: int, positions: seq<nat>): (r: Track)
    decreases |t.availOut|
  {
    if t.availOut == [] then t
    else match Classify(t.availOut[0], nowUs, startUs)
      case Early => t
      case Late => Render(ReleaseFront(t), nowUs, startUs, positions)
      case Due =>
        var (t1, finished) := PlayFront(t, if positions == [] then 0 else positions[0]);
        if finished then Render(ReleaseFront(t1), nowUs, startUs, if positions == [] then [] else positions[1..])
        else t1
  }

  // ------------------------------------------------------------- track theorems

  lemma TakeInputKeeps(t: Track, i: nat)
    requires TrackOk(t) && i in t.codecIn
    ensures TrackOk(TakeInput(t, i))
  {
    forall j: nat ensures PlacedOnce(t.codecIn - {i}, t.availIn + [i], t.inputs, j) {
      assert PlacedOnce(t.codecIn, t.availIn, t.inputs, j);
      TimesAppend(t.availIn, i, j);
    }
  }

  /** Giving the first listed buffer back is legal, and leaves every buffer in one place. */
  lemma GiveBackFirst(codec: set<nat>, list: seq<nat>, count: nat)
    requires list != [] && forall i: nat :: PlacedOnce(codec, list, count, i)
    ensures list[0] !in codec
    ensures forall i: nat :: PlacedOnce(codec + {list[0]}, list[1..], count, i)
  {
    assert list[..0] + list[1..] == list[1..];
    forall i: nat ensures PlacedOnce(codec + {list[0]}, list[1..], count, i) && (i == list[0] ==> i !in codec) {
      assert PlacedOnce(codec, list, count, i);
      TimesRemove(list, 0, i);
    }
    assert PlacedOnce(codec + {list[0]}, list[1..], count, list[0]);
  }

  lemma GiveInputKeeps(t: Track)
    requires TrackOk(t) && t.availIn != []
    ensures TrackOk(GiveInput(t)) && t.availIn[0] !in t.codecIn
  {
    GiveBackFirst(t.codecIn, t.availIn, t.inputs);
  }

  lemma TakeOutputKeeps(t: Track, a: OutputAnswer)
    requires TrackOk(t) && !Refused(t, a)
    ensures TrackOk(TakeOutput(t, a))
  {
    if a.Ready? {
      var i := a.info.index;
      assert Indices(t.availOut + [a.info]) == Indices(t.availOut) + [i];
      forall j: nat ensures PlacedOnce(t.codecOut - {i}, Indices(t.availOut) + [i], t.outputs, j) {
        assert PlacedOnce(t.codecOut, Indices(t.availOut), t.outputs, j);
        TimesAppend(Indices(t.availOut), i, j);
      }
      assert t.released + (t.availOut + [a.info]) == (t.released + t.availOut) + [a.info];
    }
  }

  lemma ReleaseFrontKeeps(t: Track)
    requires TrackOk(t) && t.availOut != []
    ensures TrackOk(ReleaseFront(t)) && t.availOut[0].index !in t.codecOut
  {
    hide PlacedOnce, Progress;
    GiveBackFirst(t.codecOut, Indices(t.availOut), t.outputs);
    IndicesTail(t.availOut);
    assert (t.released + [t.availOut[0]]) + t.availOut[1..] == t.released + t.availOut;
  }

  lemma IndicesTail(infos: seq<BufferInfo>)
    requires infos != []
    ensures Indices(infos)[0] == infos[0].index && Indices(infos)[1..] == Indices(infos[1..])
  {
  }

  lemma PlayFrontKeeps(t: Track, p: nat)
    requires TrackOk(t) && t.availOut != []
    ensures TrackOk(PlayFront(t, p).0)
  {
    var t1 := PlayFront(t, p).0;
    assert Indices(t1.availOut) == Indices(t.availOut);
    if t.whole && t.audio.Some? { RenderAudioExact(t.audio.value, t.availOut[0], p); }
    forall k | 0 <= k < |t.dequeued| ensures Progress(t1.dequeued[k], (t1.released + t1.availOut)[k]) {
      assert Progress(t.dequeued[k], (t.released + t.availOut)[k]);
    }
  }

  lemma {:induction false} DrainInputsKeeps(t: Track, answers: seq<nat>)
    requires TrackOk(t)
    ensures TrackOk(DrainInputs(t, answers))
    decreases |answers|
  {
    if answers != [] && answers[0] in t.codecIn {
      TakeInputKeeps(t, answers[0]);
      DrainInputsKeeps(TakeInput(t, answers[0]), answers[1..]);
    }
  }

  lemma {:induction false} DrainOutputsKeeps(t: Track, answers: seq<OutputAnswer>)
    requires TrackOk(t)
    ensures TrackOk(DrainOutputs(t, answers))
    decreases |answers|
  {
    if answers != [] && !Refused(t, answers[0]) {
      TakeOutputKeeps(t, answers[0]);
      DrainOutputsKeeps(TakeOutput(t, answers[0]), answers[1..]);
    }
  }

  lemma {:induction false} FeedKeeps(ts: seq<Track>, samples: seq<nat>)
    requires forall t :: t in ts ==> TrackOk(t)
    ensures forall t :: t in Feed(ts, samples) ==> TrackOk(t)
    decreases |samples|
  {
    if samples != [] && samples[0] < |ts| && ts[samples[0]].availIn != [] {
      GiveInputKeeps(ts[samples[0]]);
      FeedKeeps(ts[samples[0] := GiveInput(ts[samples[0]])], samples[1..]);
    }
  }

  lemma {:induction false} RenderKeeps(t: Track, nowUs: int, startUs: int, positions: seq<nat>)
    requires TrackOk(t)
    ensures TrackOk(Render(t, nowUs, startUs, positions))
    decreases |t.availOut|
  {
    if t.availOut == [] {
    } else {
      match Classify(t.availOut[0], nowUs, startUs)
      case Early =>
      case Late =>
        ReleaseFrontKeeps(t);
        RenderKeeps(ReleaseFront(t), nowUs, startUs, positions);
      case Due =>
        var p := if positions == [] then 0 else positions[0];
        var (t1, finished) := PlayFront(t, p);
        PlayFrontKeeps(t, p);
        if finished {
          ReleaseFrontKeeps(t1);
          RenderKeeps(ReleaseFront(t1), nowUs, startUs, if positions == [] then [] else positions[1..]);
        }
    }
  }

  // -------------------------------------------------------------- audio accounting

  /**
    One render keeps the count exact, and so never leaves more than `frameCount` frames
    unplayed, if and only if the buffer is a whole number of frames or fills all the room.
  */
  lemma RenderAudioExact(a: Audio, info: BufferInfo, p: nat)
    requires AudioExact(a)
    ensures
      var (a', info') := RenderAudio(a, info, p);
      var room := (a.frameCount - (a.written - Position(a, p))) * a.frameSize;
      && Progress(info, info')
      && a'.bytes - a.bytes == info.size - info'.size <= room
      && (AudioExact(a') <==> info.size % a.frameSize == 0 || info.size >= room)
      && (info'.size > 0 && AudioExact(a') ==> a'.written == a'.played + a'.frameCount)
      && (info.size % a.frameSize == 0 ==> info'.size % a.frameSize == 0)
  {
    hide Position, FramesAvailable;
    var b := a.(played := Position(a, p));
    PositionCounted(a, p);
    var frames := a.frameCount - (a.written - b.played);
    var fs, room := a.frameSize, frames * a.frameSize;
    RoomLeft(b);
    if info.size > room { RoomFilled(a.written, frames, info.size, fs); } else { AllCopied(a.written, frames, info.size, fs); }
  }

  /** Arithmetic of a copy that fills all the room. */
  lemma RoomFilled(written: nat, frames: nat, size: nat, fs: positive)
    requires size > frames * fs
    ensures frames * fs / fs == frames && (written + frames) * fs == written * fs + frames * fs
    ensures size % fs == 0 ==> (size - frames * fs) % fs == 0
  {
    QuotientUnique(frames * fs, frames, 0, fs);
    var q := size / fs;
    assert size - frames * fs == (q - frames) * fs + size % fs;
    QuotientUnique(size - frames * fs, q - frames, size % fs, fs);
  }

  /** Arithmetic of a copy that fits in the room. */
  lemma AllCopied(written: nat, frames: nat, size: nat, fs: positive)
    requires size <= frames * fs
    ensures size / fs <= frames
    ensures (written + size / fs) * fs == written * fs + size <==> size % fs == 0
    ensures size == frames * fs ==> size % fs == 0 && size / fs == frames
  {
    QuotientBound(size, frames, fs);
    if size == frames * fs { QuotientUnique(size, frames, 0, fs); }
    assert (written + size / fs) * fs == written * fs + (size / fs) * fs;
  }

  /** While the count is right, the position is between the last one and the frames counted. */
  lemma PositionCounted(a: Audio, p: nat)
    requires AudioExact(a)
    ensures a.played <= Position(a, p) <= a.written
  {
    QuotientUnique(a.bytes, a.written, 0, a.frameSize);
  }

  /** While the count is right the room is what the track has left. */
  lemma RoomLeft(a: Audio)
    requires a.played <= a.written <= a.played + a.frameCount
    ensures FramesAvailable(a) == a.frameCount - (a.written - a.played) <= a.frameCount
  {
  }

  /**
    The unsigned difference gives more room than the whole track exactly when the frames played
    have passed the frames counted, by less than what makes the sum wrap around.
  */
  lemma RoomExceedsTrack(a: Audio)
    ensures FramesAvailable(a) > a.frameCount <==> 0 < (a.played - a.written) % 0x1_0000_0000 < 0x1_0000_0000 - a.frameCount
  {
  }

  /** Two partial frames make one that is played but not counted: a one-frame track then takes two at once. */
  lemma LostFrameOverfills()
    ensures
      var part := BufferInfo(0, 0, 3, 0);
      var a := RenderAudio(RenderAudio(Audio(1, 4, 0, 0, 0), part, 0).0, part, 0).0;
      var (a', info') := RenderAudio(a, BufferInfo(1, 0, 8, 0), 1);
      && a.written == 0 && a.bytes == 6
      && FramesAvailable(a.(played := Position(a, 1))) == 2 > a.frameCount
      && info'.size == 0 && a'.bytes == a.bytes + 8
  {
    var part := BufferInfo(0, 0, 3, 0);
    var a1 := RenderAudio(Audio(1, 4, 0, 0, 0), part, 0).0;
    assert a1 == Audio(1, 4, 0, 0, 3);
    var a2 := RenderAudio(a1, part, 0).0;
    assert a2 == Audio(1, 4, 0, 0, 6);
    assert Position(a2, 1) == 1;
  }

  /** Half a frame is enough to lose count: three bytes of a four-byte frame count as none. */
  lemma PartialFrameLosesCount()
    ensures
      var a := Audio(1, 4, 0, 0, 0);
      var a' := RenderAudio(a, BufferInfo(0, 0, 3, 0), 0).0;
      AudioExact(a) && a'.bytes == 3 && a'.written == 0 && !AudioExact(a')
  {
  }

  // ------------------------------------------------------------------ messages

  datatype Phase = UNINITIALIZED | UNPREPARED | STOPPED | STARTED

  /** What the extractor, codecs, clock and audio tracks answer during one round of work. */
  datatype Work = Work(
    inputs: seq<seq<nat>>,            // per track: dequeued input buffers
    outputs: seq<seq<OutputAnswer>>,  // per track: dequeueOutputBuffer answers
    samples: seq<nat>,                // track of each sample, until input EOS
    nowUs: int,
    positions: seq<seq<nat>>)         // per track: audio positions read

  type Failure = e: int | e != 0 witness -1

  /** Opening the source: the buffer counts of each selected track's codec, or an error. */
  datatype Opening = Opened(counts: seq<(nat, nat)>) | NotOpened(err: Failure)

  datatype Message =
    | SetDataSource
    | SetSurface
    | Prepare(opening: Opening)
    | Start(opening: Opening)
    | Stop
    | Reset
    | DoMoreStuff(k: nat, work: Work)   // the k-th pending work message is delivered

  datatype Player = Player(
    phase: Phase,
    generation: int,
    pending: seq<int>,    // generations of the work messages posted and not yet delivered
    extractor: bool,      // mExtractor is held
    tracks: seq<Track>,
    startTimeRealUs: int)

  const NewPlayer := Player(UNINITIALIZED, 0, [], false, [], -1)

  function Entry<T>(ss: seq<seq<T>>, i: nat): seq<T> { if i < |ss| then ss[i] else [] }

  function Drained(t: Track, w: Work, i: nat): Track {
    DrainOutputs(DrainInputs(t, Entry(w.inputs, i)), Entry(w.outputs, i))
  }

  function DrainAll(ts: seq<Track>, w: Work): seq<Track> {
    seq(|ts|, i requires 0 <= i < |ts| => Drained(ts[i], w, i))
  }

  function RenderAll(ts: seq<Track>, w: Work, startUs: int): seq<Track> {
    seq(|ts|, i requires 0 <= i < |ts| => Render(ts[i], w.nowUs, startUs, Entry(w.positions, i)))
  }

  function StartTime(p: Player, w: Work): int {
    if p.startTimeRealUs < 0 then w.nowUs + 1000000 else p.startTimeRealUs
  }

  /** `onDoMoreStuff`. */
  function DoWork(p: Player, w: Work): Player {
    p.(startTimeRealUs := StartTime(p, w),
       tracks := RenderAll(Feed(DrainAll(p.tracks, w), w.samples), w, StartTime(p, w)))
  }

  /** `onPrepare`, followed by the phase change of its two callers. */
  function DoPrepare(p: Player, o: Opening): (Player, int) {
    match o
    case NotOpened(err) => (p, err)
    case Opened(counts) =>
      (p.(extractor := true, phase := STOPPED,
          tracks := p.tracks + seq(|counts|, i requires 0 <= i < |counts| => NewTrack(counts[i].0, counts[i].1))), OK)
  }

  function DoStart(p: Player): Player {
    p.(startTimeRealUs := -1, generation := p.generation + 1, pending := p.pending + [p.generation + 1], phase := STARTED)
  }

  function DoStop(p: Player): Player { p.(generation := p.generation + 1, phase := STOPPED) }

  function DoReset(p: Player): Player {
    p.(phase := UNINITIALIZED, startTimeRealUs := -1, tracks := [], extractor := false)
  }

  function Without<T>(s: seq<T>, k: nat): seq<T>
    requires k < |s|
  {
    s[..k] + s[k + 1..]
  }

  /** `onMessageReceived`: the new state and the reply, where the code gives one. */
  function Handle(p: Player, m: Message): (Player, Option<int>) {
    match m
    case SetDataSource =>
      if p.phase != UNINITIALIZED then (p, Some(INVALID_OPERATION)) else (p.(phase := UNPREPARED), None)
    case SetSurface => (p, Some(if p.phase != UNPREPARED then INVALID_OPERATION else OK))
    case Prepare(o) =>
      if p.phase != UNPREPARED then (p, Some(INVALID_OPERATION))
      else var (q, err) := DoPrepare(p, o); (q, Some(err))
    case Start(o) =>
      var (q, err) := if p.phase == UNPREPARED then DoPrepare(p, o) else (p, OK);
      if err != OK then (q, Some(err))
      else if q.phase != STOPPED then (q, Some(INVALID_OPERATION))
      else (DoStart(q), Some(OK))
    case Stop => if p.phase != STARTED then (p, Some(INVALID_OPERATION)) else (DoStop(p), Some(OK))
    case Reset =>
      var q := if p.phase == STARTED then DoStop(p) else p;
      (if q.phase == STOPPED then DoReset(q) else q, Some(OK))
    case DoMoreStuff(k, w) =>
      if k >= |p.pending| then (p, None)
      else
        var q := p.(pending := Without(p.pending, k));
        if p.pending[k] != p.generation then (q, None)
        else var r := DoWork(q, w); (r.(pending := r.pending + [p.generation]), None)
  }

  function Run(p: Player, ms: seq<Message>): Player {
    if ms == [] then p else Handle(Run(p, ms[..|ms| - 1]), ms[|ms| - 1]).0
  }

  /** Exactly one live work message when started, none otherwise; the rest are stale for ever. */
  ghost predicate WorkOk(p: Player) {
    && Times(p.pending, p.generation) == (if p.phase == STARTED then 1 else 0)
    && forall g :: g in p.pending ==> g <= p.generation
  }

  ghost predicate TracksOk(ts: seq<Track>) { forall t :: t in ts ==> TrackOk(t) }

  ghost predicate Inv(p: Player) {
    && WorkOk(p)
    && (p.extractor <==> p.phase == STOPPED || p.phase == STARTED)
    && (p.tracks != [] ==> p.extractor)
    && TracksOk(p.tracks)
  }

  lemma NewTrackOk(inputs: nat, outputs: nat)
    ensures TrackOk(NewTrack(inputs, outputs))
  {
  }

  lemma PrepareKeeps(p: Player, o: Opening)
    requires Inv(p) && p.phase == UNPREPARED
    ensures Inv(DoPrepare(p, o).0)
  {
    if o.Opened? {
      forall i | 0 <= i < |o.counts| { NewTrackOk(o.counts[i].0, o.counts[i].1); }
    }
  }

  /** A new generation outdates every message posted before. */
  lemma {:induction false} NoneAbove(s: seq<int>, g: int)
    requires forall x :: x in s ==> x < g
    ensures Times(s, g) == 0
  {
    TimesMember(s, g);
  }

  lemma WorkKeepsTracks(ts: seq<Track>, w: Work, startUs: int)
    requires TracksOk(ts)
    ensures TracksOk(RenderAll(Feed(DrainAll(ts, w), w.samples), w, startUs))
  {
    forall i | 0 <= i < |ts| ensures TrackOk(Drained(ts[i], w, i)) {
      DrainInputsKeeps(ts[i], Entry(w.inputs, i));
      DrainOutputsKeeps(DrainInputs(ts[i], Entry(w.inputs, i)), Entry(w.outputs, i));
    }
    var fed := Feed(DrainAll(ts, w), w.samples);
    FeedKeeps(DrainAll(ts, w), w.samples);
    forall i | 0 <= i < |fed| ensures TrackOk(Render(fed[i], w.nowUs, startUs, Entry(w.positions, i))) {
      RenderKeeps(fed[i], w.nowUs, startUs, Entry(w.positions, i));
    }
  }

  lemma DeliveryKeeps(p: Player, k: nat, w: Work)
    requires Inv(p) && k < |p.pending|
    ensures Inv(Handle(p, DoMoreStuff(k, w)).0)
    ensures p.pending[k] == p.generation ==> p.phase == STARTED && p.extractor
  {
    TimesRemove(p.pending, k, p.generation);
    TimesAppend(Without(p.pending, k), p.generation, p.generation);
    WorkKeepsTracks(p.tracks, w, StartTime(p, w));
    assert forall g :: g in Without(p.pending, k) ==> g in p.pending;
    TimesMember(p.pending, p.generation);
    if p.pending[k] == p.generation {
      var r := Handle(p, DoMoreStuff(k, w)).0;
      assert r.pending == Without(p.pending, k) + [p.generation];
    }
  }

  /** Every message keeps the invariant. */
  lemma HandleKeeps(p: Player, m: Message)
    requires Inv(p)
    ensures Inv(Handle(p, m).0)
  {
    NoneAbove(p.pending, p.generation + 1);
    TimesAppend(p.pending, p.generation + 1, p.generation + 1);
    match m
    case SetDataSource =>
    case SetSurface =>
    case Prepare(o) => if p.phase == UNPREPARED { PrepareKeeps(p, o); }
    case Start(o) => if p.phase == UNPREPARED { PrepareKeeps(p, o); }
    case Stop =>
    case Reset =>
    case DoMoreStuff(k, w) => if k < |p.pending| { DeliveryKeeps(p, k, w); }
  }

  lemma {:induction false} EveryRunKeeps(ms: seq<Message>)
    ensures Inv(Run(NewPlayer, ms))
  {
    if ms == [] {
    } else {
      EveryRunKeeps(ms[..|ms| - 1]);
      HandleKeeps(Run(NewPlayer, ms[..|ms| - 1]), ms[|ms| - 1]);
    }
  }

  /**
    After any run: one live work message exactly when started, the extractor held exactly
    when stopped or started, and whichever pending message comes next, the work is done
    only while started.
  */
  lemma {:induction false} WorkOnlyWhileStarted(ms: seq<Message>, k: nat)
    ensures
      var p := Run(NewPlayer, ms);
      && Times(p.pending, p.generation) == (if p.phase == STARTED then 1 else 0)
      && (p.extractor <==> p.phase == STOPPED || p.phase == STARTED)
      && (k < |p.pending| && p.pending[k] == p.generation ==> p.phase == STARTED)
  {
    EveryRunKeeps(ms);
    var p := Run(NewPlayer, ms);
    if k < |p.pending| { DeliveryKeeps(p, k, Work([], [], [], 0, [])); }
  }

  /** After any run, in every track: each buffer in one place, outputs in order, no overfull audio track. */
  lemma {:induction false} BuffersAfterAnyRun(ms: seq<Message>, t: Track, i: nat)
    requires t in Run(NewPlayer, ms).tracks
    ensures PlacedOnce(t.codecIn, t.availIn, t.inputs, i)
    ensures PlacedOnce(t.codecOut, Indices(t.availOut), t.outputs, i)
    ensures Fifo(t)
    ensures t.whole && t.audio.Some? ==> t.audio.value.written - t.audio.value.played <= t.audio.value.frameCount
  {
    EveryRunKeeps(ms);
  }

  // ---------------------------------------------------------------- the player

  method DrainInputsLoop(t: Track, answers: seq<nat>) returns (r: Track)
    ensures r == DrainInputs(t, answers)
  {
    r := t;
    var i := 0;
    while i < |answers| && answers[i] in r.codecIn
      invariant 0 <= i <= |answers|
      invariant DrainInputs(r, answers[i..]) == DrainInputs(t, answers)
    {
      assert answers[i..][1..] == answers[i + 1..];
      r := r.(codecIn := r.codecIn - {answers[i]}, availIn := r.availIn + [answers[i]]);
      i := i + 1;
    }
  }

  method DrainOutputsLoop(t: Track, answers: seq<OutputAnswer>) returns (r: Track)
    ensures r == DrainOutputs(t, answers)
  {
    r := t;
    var i := 0;
    while i < |answers| && !Refused(r, answers[i])
      invariant 0 <= i <= |answers|
      invariant DrainOutputs(r, answers[i..]) == DrainOutputs(t, answers)
    {
      assert answers[i..][1..] == answers[i + 1..];
      r := TakeOutput(r, answers[i]);
      i := i + 1;
    }
  }

  method FeedLoop(ts: seq<Track>, samples: seq<nat>) returns (r: seq<Track>)
    ensures r == Feed(ts, samples)
  {
    r := ts;
    var i := 0;
    while i < |samples| && samples[i] < |r| && r[samples[i]].availIn != []
      invariant 0 <= i <= |samples| && |r| == |ts|
      invariant Feed(r, samples[i..]) == Feed(ts, samples)
    {
      assert samples[i..][1..] == samples[i + 1..];
      r := r[samples[i] := GiveInput(r[samples[i]])];
      i := i + 1;
    }
  }

  method RenderLoop(t: Track, nowUs: int, startUs: int, positions: seq<nat>) returns (r: Track)
    ensures r == Render(t, nowUs, startUs, positions)
  {
    r := t;
    var ps := positions;
    while r.availOut != []
      invariant Render(r, nowUs, startUs, ps) == Render(t, nowUs, startUs, positions)
      decreases |r.availOut|
    {
      var lateByUs := nowUs - (r.availOut[0].presentationTimeUs + startUs);
      if lateByUs > -10000 {
        var release := true;
        if lateByUs <= 30000 {
          if r.audio.Some? {
            var a, info := RenderAudioCall(r.audio.value, r.availOut[0], if ps == [] then 0 else ps[0]);
            r := r.(audio := Some(a), availOut := r.availOut[0 := info]);
            if info.size > 0 { release := false; }
          }
          if release { ps := if ps == [] then [] else ps[1..]; }
        }
        if !release { break; }
        r := ReleaseFront(r);
      } else {
        break;
      }
    }
  }

  method RenderAudioCall(a0: Audio, info: BufferInfo, p: nat) returns (a: Audio, rest: BufferInfo)
    ensures (a, rest) == RenderAudio(a0, info, p)
  {
    a, rest := a0.(played := Position(a0, p)), info;
    hide FramesAvailable, Position, Product, Quotient;
    var numBytesAvailable := Product(FramesAvailable(a), a.frameSize);
    var copy := info.size;
    if copy > numBytesAvailable { copy := numBytesAvailable; }
    if copy == 0 { return; }
    rest := rest.(offset := rest.offset + copy, size := rest.size - copy);
    a := a.(written := a.written + Quotient(copy, a.frameSize), bytes := a.bytes + copy);
  }

  method DrainAllLoop(ts: seq<Track>, w: Work) returns (r: seq<Track>)
    ensures r == DrainAll(ts, w)
  {
    r := ts;
    for i := 0 to |ts|
      invariant |r| == |ts|
      invariant forall j :: 0 <= j < i ==> r[j] == Drained(ts[j], w, j)
      invariant forall j :: i <= j < |ts| ==> r[j] == ts[j]
    {
      var t := DrainInputsLoop(r[i], if i < |w.inputs| then w.inputs[i] else []);
      t := DrainOutputsLoop(t, if i < |w.outputs| then w.outputs[i] else []);
      r := r[i := t];
    }
  }

  method RenderAllLoop(ts: seq<Track>, w: Work, startUs: int) returns (r: seq<Track>)
    ensures r == RenderAll(ts, w, startUs)
  {
    r := ts;
    for i := 0 to |ts|
      invariant |r| == |ts|
      invariant forall j :: 0 <= j < i ==> r[j] == Render(ts[j], w.nowUs, startUs, Entry(w.positions, j))
      invariant forall j :: i <= j < |ts| ==> r[j] == ts[j]
    {
      var t := RenderLoop(r[i], w.nowUs, startUs, if i < |w.positions| then w.positions[i] else []);
      r := r[i := t];
    }
  }

  class SimplePlayer {
    var phase: Phase
    var generation: int
    var pending: seq<int>
    var extractor: bool
    var tracks: seq<Track>
    var startTimeRealUs: int

    function View(): Player
      reads this
    {
      Player(phase, generation, pending, extractor, tracks, startTimeRealUs)
    }

    constructor ()
      ensures View() == NewPlayer && Inv(View())
    {
      phase, generation, pending, extractor, tracks, startTimeRealUs := UNINITIALIZED, 0, [], false, [], -1;
    }

    method OnPrepare(o: Opening) returns (err: int)
      modifies this
      ensures (View(), err) == DoPrepare(old(View()), o)
    {
      match o {
        case NotOpened(e) => err := e;
        case Opened(counts) =>
          extractor := true;
          var added: seq<Track> := [];
          for i := 0 to |counts|
            invariant unchanged(`phase, `generation, `pending, `tracks, `startTimeRealUs) && extractor
            invariant added == seq(i, j requires 0 <= j < i => NewTrack(counts[j].0, counts[j].1))
          {
            added := added + [NewTrack(counts[i].0, counts[i].1)];
          }
          tracks := tracks + added;
          phase := STOPPED;
          err := OK;
      }
    }

    method OnDoMoreStuff(w: Work)
      modifies this
      ensures View() == DoWork(old(View()), w)
    {
      tracks := DrainAllLoop(tracks, w);
      tracks := FeedLoop(tracks, w.samples);
      if startTimeRealUs < 0 {
        startTimeRealUs := w.nowUs + 1000000;
      }
      tracks := RenderAllLoop(tracks, w, startTimeRealUs);
    }

    method OnStart()
      modifies this
      ensures View() == DoStart(old(View()))
    {
      startTimeRealUs := -1;
      generation := generation + 1;
      pending := pending + [generation];
      phase := STARTED;
    }

    method OnStop()
      modifies this
      ensures View() == DoStop(old(View()))
    {
      generation := generation + 1;
      phase := STOPPED;
    }

    method OnMessageReceived(m: Message) returns (reply: Option<int>)
      requires Inv(View())
      modifies this
      ensures (View(), reply) == Handle(old(View()), m)
      ensures Inv(View())
    {
      hide Inv, DoWork;
      HandleKeeps(View(), m);
      reply := None;
      match m {
        case SetDataSource =>
          if phase != UNINITIALIZED { reply := Some(INVALID_OPERATION); } else { phase := UNPREPARED; }
        case SetSurface =>
          reply := Some(if phase != UNPREPARED then INVALID_OPERATION else OK);
        case Prepare(o) =>
          var err := INVALID_OPERATION;
          if phase == UNPREPARED { err := OnPrepare(o); }
          reply := Some(err);
        case Start(o) =>
          var err := OK;
          if phase == UNPREPARED { err := OnPrepare(o); }
          if err == OK {
            if phase != STOPPED { err := INVALID_OPERATION; } else { OnStart(); }
          }
          reply := Some(err);
        case Stop =>
          if phase != STARTED {
            reply := Some(INVALID_OPERATION);
          } else {
            OnStop();
            reply := Some(OK);
          }
        case Reset =>
          if phase == STARTED { OnStop(); }
          if phase == STOPPED {
            startTimeRealUs, tracks, extractor := -1, [], false;
            phase := UNINITIALIZED;
          }
          reply := Some(OK);
        case DoMoreStuff(k, w) =>
          if k < |pending| {
            var g := pending[k];
            pending := pending[..k] + pending[k + 1..];
            if g == generation {
              OnDoMoreStuff(w);
              pending := pending + [g];
            }
          }
      }
    }
  }
}
