/**
  The audio player of cmds/stagefright/AudioPlayer.cpp: bytes are streamed out of
  buffers borrowed from a media source by an audio callback (`fillBuffer`), while
  another thread may call `seekTo`.  `fillBuffer` holds the lock only in two short
  sections of each loop turn; the source read runs with the lock released.

  `Fields` holds the fields the two threads share.  Each section of the code is a
  function on `Fields`; the class `AudioPlayer` updates the same fields in place,
  and `Machine` interleaves the sections with seeks in every possible order.
*/
module AudioPlayerModel {
  import opened Basics

  const OK := 0
  const ERROR_END_OF_STREAM := -1011
  const INFO_FORMAT_CHANGED := -1012

  type Failure = e: int | e != 0 witness -1011

  /** A buffer on loan from the source.  `id` numbers the loans; `range` is what is left of it. */
  datatype MediaBuffer = MediaBuffer(id: nat, range: seq<byte>)

  /** What `MediaSource::read` returns: a buffer exactly when the status is OK. */
  datatype ReadResult = Payload(bytes: seq<byte>) | Failed(err: Failure)

  datatype Fields = Fields(
    inputBuffer: Option<MediaBuffer>,
    firstBuffer: Option<MediaBuffer>,
    isFirstBuffer: bool,
    firstBufferResult: int,
    seeking: bool,
    seekTimeUs: int,
    reachedEOS: bool,
    finalStatus: int,
    acquired: nat,        // loans made by the source so far
    released: seq<nat>)   // loans given back, in order

  const Fresh := Fields(None, None, false, OK, false, 0, false, OK, 0, [])

  // ---------------------------------------------------------------- sections

  function ReleaseFirst(f: Fields): Fields {
    if f.firstBuffer.None? then f
    else f.(firstBuffer := None, released := f.released + [f.firstBuffer.value.id])
  }

  function ReleaseInput(f: Fields): Fields {
    if f.inputBuffer.None? then f
    else f.(inputBuffer := None, released := f.released + [f.inputBuffer.value.id])
  }

  /** First locked section: a pending seek drops both buffers and becomes a read option. */
  function SeekSection(f: Fields): (Fields, Option<int>) {
    if !f.seeking then (f, None)
    else
      var f1 := if f.isFirstBuffer then ReleaseFirst(f).(isFirstBuffer := false) else f;
      (ReleaseInput(f1).(seeking := false), Some(f.seekTimeUs))
  }

  /** Unlocked section: take the stashed first buffer, or read the source. */
  function Obtain(f: Fields, rr: ReadResult): (Fields, int) {
    if f.isFirstBuffer then
      (f.(inputBuffer := f.firstBuffer, firstBuffer := None, isFirstBuffer := false), f.firstBufferResult)
    else match rr
      case Payload(bytes) => (f.(inputBuffer := Some(MediaBuffer(f.acquired, bytes)), acquired := f.acquired + 1), OK)
      case Failed(err) => (f, err)
  }

  /** Second locked section. */
  function AfterRead(f: Fields, offload: bool, err: int, refresh: bool): Fields {
    if err != OK then
      f.(reachedEOS := f.reachedEOS || !offload, finalStatus := err)
    else if refresh && !f.seeking then f.(seekTimeUs := 0)
    else f
  }

  /** Copy at most `remaining` bytes out of the input buffer; an empty buffer is given back. */
  function Copy(f: Fields, remaining: nat): (Fields, seq<byte>)
    requires f.inputBuffer.Some?
  {
    var b := f.inputBuffer.value;
    if |b.range| == 0 then (ReleaseInput(f), [])
    else
      var n := if remaining > |b.range| then |b.range| else remaining;
      (f.(inputBuffer := Some(b.(range := b.range[n..]))), b.range[..n])
  }

  function Seek(f: Fields, timeUs: int): Fields {
    f.(seeking := true, reachedEOS := false, seekTimeUs := timeUs)
  }

  /** How `start` ends: the source does not start, or, once the first read is done, one of the others. */
  datatype StartOutcome = SourceFailed | Started | BadValue | DeviceFailed

  function StartRead(f: Fields, rr: ReadResult): Fields {
    var f1 := f.(seeking := false);
    match rr
    case Payload(bytes) =>
      f1.(firstBuffer := Some(MediaBuffer(f.acquired, bytes)), acquired := f.acquired + 1,
          firstBufferResult := OK, isFirstBuffer := true)
    case Failed(err) =>
      if err == INFO_FORMAT_CHANGED then f1.(firstBufferResult := OK, isFirstBuffer := false)
      else f1.(firstBufferResult := err, isFirstBuffer := true)
  }

  function Start(f: Fields, rr: ReadResult, outcome: StartOutcome): Fields {
    match outcome
    case SourceFailed => f
    case DeviceFailed => ReleaseFirst(StartRead(f, rr))
    case _ => StartRead(f, rr)
  }

  function Reset(f: Fields): Fields {
    ReleaseInput(ReleaseFirst(f)).(seeking := false, seekTimeUs := 0, reachedEOS := false, finalStatus := OK)
  }

  // --------------------------------------------------------------- ownership

  predicate Holds(b: Option<MediaBuffer>, id: nat) { b.Some? && b.value.id == id }

  /** Loan `id`: given back, in the input slot or in the first slot, exactly one of the three, once. */
  ghost predicate LoanOk(input: Option<MediaBuffer>, first: Option<MediaBuffer>, released: seq<nat>, acquired: nat, id: nat) {
    Times(released, id) + (if Holds(input, id) then 1 else 0) + (if Holds(first, id) then 1 else 0)
    == if id < acquired then 1 else 0
  }

  ghost predicate LoansBalance(f: Fields) {
    forall id: nat :: LoanOk(f.inputBuffer, f.firstBuffer, f.released, f.acquired, id)
  }

  /** The stashed buffer exists only as long as it is announced, and only on a good first read. */
  ghost predicate StashOk(f: Fields) {
    && (f.firstBuffer.Some? ==> f.isFirstBuffer)
    && (f.isFirstBuffer ==> f.inputBuffer.None? && (f.firstBufferResult == OK <==> f.firstBuffer.Some?))
  }

  ghost predicate Valid(f: Fields) { LoansBalance(f) && StashOk(f) }

  lemma ReleaseKeeps(f: Fields)
    requires LoansBalance(f)
    ensures LoansBalance(ReleaseFirst(f)) && LoansBalance(ReleaseInput(f))
  {
    forall id: nat
      ensures f.firstBuffer.Some? ==> LoanOk(f.inputBuffer, None, f.released + [f.firstBuffer.value.id], f.acquired, id)
      ensures f.inputBuffer.Some? ==> LoanOk(None, f.firstBuffer, f.released + [f.inputBuffer.value.id], f.acquired, id)
    {
      assert LoanOk(f.inputBuffer, f.firstBuffer, f.released, f.acquired, id);
      if f.firstBuffer.Some? { TimesAppend(f.released, f.firstBuffer.value.id, id); }
      if f.inputBuffer.Some? { TimesAppend(f.released, f.inputBuffer.value.id, id); }
    }
  }

  /** Each section of the loop keeps every loan in exactly one place. */
  lemma SectionsKeep(f: Fields, rr: ReadResult, remaining: nat)
    requires Valid(f)
    ensures Valid(SeekSection(f).0)
    ensures f.inputBuffer.None? ==> Valid(Obtain(f, rr).0)
    ensures f.inputBuffer.Some? ==> Valid(Copy(f, remaining).0)
  {
    ReleaseKeeps(f);
    ReleaseKeeps(ReleaseFirst(f));
    forall id: nat
      ensures f.inputBuffer.None? ==>
        var g := Obtain(f, rr).0; LoanOk(g.inputBuffer, g.firstBuffer, g.released, g.acquired, id)
      ensures f.inputBuffer.Some? ==>
        var g := Copy(f, remaining).0; LoanOk(g.inputBuffer, g.firstBuffer, g.released, g.acquired, id)
    {
      assert LoanOk(f.inputBuffer, f.firstBuffer, f.released, f.acquired, id);
    }
  }

  /** After a reset following any valid history, each loan has been given back exactly once. */
  lemma {:induction false} ResetReleasesEachLoanOnce(f: Fields, id: nat)
    requires Valid(f)
    ensures Reset(f).inputBuffer.None? && Reset(f).firstBuffer.None?
    ensures Times(Reset(f).released, id) == if id < f.acquired then 1 else 0
  {
    ReleaseKeeps(f);
    ReleaseKeeps(ReleaseFirst(f));
    assert LoanOk(None, None, Reset(f).released, f.acquired, id);
  }

  lemma StartKeeps(f: Fields, rr: ReadResult, outcome: StartOutcome)
    requires LoansBalance(f) && f.firstBuffer.None? && f.inputBuffer.None?
    ensures LoansBalance(Start(f, rr, outcome))
    ensures outcome.Started? ==> Valid(Start(f, rr, outcome))
  {
    var g := StartRead(f, rr);
    forall id: nat ensures LoanOk(g.inputBuffer, g.firstBuffer, g.released, g.acquired, id) {
      assert LoanOk(f.inputBuffer, f.firstBuffer, f.released, f.acquired, id);
    }
    ReleaseKeeps(g);
  }

  // ------------------------------------------------------------ interleavings

  /** What an observer of the player sees. */
  datatype Entry =
    | Requested(timeUs: int)                       // seekTo(timeUs)
    | Consumed(timeUs: int)                        // a seek left the pending slot
    | Read(seekTo: Option<int>, id: nat, r: ReadResult)
    | Called(size: nat, atEos: bool)               // fillBuffer entered
    | ReadFailure(err: int)                           // fillBuffer saw a failed read
    | Delivered(id: nat, bytes: seq<byte>)
    | Returned(done: nat)

  type Log = seq<Entry>

  datatype Pc =
    | Idle
    | Top(done: nat, remaining: nat)
    | Fetching(opts: Option<int>, done: nat, remaining: nat)
    | Fetched(err: int, refresh: bool, done: nat, remaining: nat)
    | Copying(done: nat, remaining: nat)

  datatype Machine = Machine(f: Fields, pc: Pc, offload: bool, log: Log)

  datatype Event =
    | SeekTo(timeUs: int)      // any thread, under the lock
    | StreamEnd                // the sink reports the end of the stream
    | Fill(size: nat)          // the sink asks for data
    | Advance(rr: ReadResult)  // the callback thread runs to its next lock operation

  function BeginFill(m: Machine, size: nat): Machine
    requires m.pc.Idle?
  {
    var called := m.log + [Called(size, m.f.reachedEOS)];
    if m.f.reachedEOS then m.(log := called + [Returned(0)])
    else m.(log := called, pc := Top(0, size))
  }

  function AdvanceTop(m: Machine): Machine
    requires m.pc.Top?
  {
    if m.pc.remaining == 0 then m.(pc := Idle, log := m.log + [Returned(m.pc.done)])
    else
      var (f, opts) := SeekSection(m.f);
      m.(f := f, pc := Fetching(opts, m.pc.done, m.pc.remaining),
         log := if opts.None? then m.log else m.log + [Consumed(opts.value)])
  }

  function AdvanceFetching(m: Machine, rr: ReadResult): Machine
    requires m.pc.Fetching?
  {
    if m.f.inputBuffer.Some? then m.(pc := Copying(m.pc.done, m.pc.remaining))
    else
      var (f, err) := Obtain(m.f, rr);
      m.(f := f, pc := Fetched(err, m.pc.opts.Some?, m.pc.done, m.pc.remaining),
         log := if m.f.isFirstBuffer then m.log else m.log + [Read(m.pc.opts, m.f.acquired, rr)])
  }

  function AdvanceFetched(m: Machine): Machine
    requires m.pc.Fetched?
  {
    var f := AfterRead(m.f, m.offload, m.pc.err, m.pc.refresh);
    if m.pc.err != OK then m.(f := f, pc := Idle, log := m.log + [ReadFailure(m.pc.err), Returned(m.pc.done)])
    else m.(f := f, pc := Copying(m.pc.done, m.pc.remaining))
  }

  function AdvanceCopying(m: Machine): Machine
    requires m.pc.Copying? && m.f.inputBuffer.Some?
  {
    var (f, bytes) := Copy(m.f, m.pc.remaining);
    var left := m.pc.remaining - |bytes|;
    m.(f := f, pc := Top(m.pc.done + |bytes|, left),
       log := if bytes == [] then m.log else m.log + [Delivered(m.f.inputBuffer.value.id, bytes)])
  }

  /** One atomic step of the whole system; an event that is not enabled changes nothing. */
  function Next(m: Machine, e: Event): Machine {
    match e
    case SeekTo(t) => m.(f := Seek(m.f, t), log := m.log + [Requested(t)])
    case StreamEnd => m.(f := m.f.(reachedEOS := true))
    case Fill(size) => if m.pc.Idle? then BeginFill(m, size) else m
    case Advance(rr) =>
      match m.pc
      case Idle => m
      case Top(_, _) => AdvanceTop(m)
      case Fetching(_, _, _) => AdvanceFetching(m, rr)
      case Fetched(_, _, _, _) => AdvanceFetched(m)
      case Copying(_, _) => if m.f.inputBuffer.Some? then AdvanceCopying(m) else m
  }

  function Run(m: Machine, es: seq<Event>): Machine {
    if es == [] then m else Next(Run(m, es[..|es| - 1]), es[|es| - 1])
  }

  /** The player after a successful `start`, possibly with a seek requested beforehand. */
  function AfterStart(offload: bool, early: Option<int>, rr: ReadResult): Machine {
    var f := if early.None? then Fresh else Seek(Fresh, early.value);
    var log: Log := if early.None? then [] else [Requested(early.value), Consumed(early.value)];
    Machine(Start(f, rr, Started), Idle, offload, log + [Read(early, 0, rr)])
  }

  // -------------------------------------------------- what the log must satisfy

  /** The time of the last `seekTo`. */
  function LastRequest(log: Log): Option<int> {
    if log == [] then None
    else match log[|log| - 1]
      case Requested(t) => Some(t)
      case _ => LastRequest(log[..|log| - 1])
  }

  /** The time of a seek consumed since the last source read, if any. */
  function Unread(log: Log): Option<int> {
    if log == [] then None
    else match log[|log| - 1]
      case Consumed(t) => Some(t)
      case Read(_, _, _) => None
      case _ => Unread(log[..|log| - 1])
  }

  /** Loans read since the last consumed seek. */
  function Current(log: Log): set<nat> {
    if log == [] then {}
    else match log[|log| - 1]
      case Consumed(_) => {}
      case Read(_, id, Payload(_)) => Current(log[..|log| - 1]) + {id}
      case _ => Current(log[..|log| - 1])
  }

  /** Bytes read, and bytes delivered, since the last consumed seek. */
  function BytesRead(log: Log): seq<byte> {
    if log == [] then []
    else match log[|log| - 1]
      case Consumed(_) => []
      case Read(_, _, Payload(bytes)) => BytesRead(log[..|log| - 1]) + bytes
      case _ => BytesRead(log[..|log| - 1])
  }

  function BytesOut(log: Log): seq<byte> {
    if log == [] then []
    else match log[|log| - 1]
      case Consumed(_) => []
      case Delivered(_, bytes) => BytesOut(log[..|log| - 1]) + bytes
      case _ => BytesOut(log[..|log| - 1])
  }

  /** The call in progress: its size, whether it began at the end of the stream, what it did. */
  datatype Call = Call(size: nat, atEos: bool, failed: bool, done: nat)

  function CurrentCall(log: Log): Call {
    if log == [] then Call(0, true, false, 0)
    else
      var c := CurrentCall(log[..|log| - 1]);
      match log[|log| - 1]
      case Called(size, atEos) => Call(size, atEos, false, 0)
      case ReadFailure(_) => c.(failed := true)
      case Delivered(_, bytes) => c.(done := c.done + |bytes|)
      case _ => c
  }

  /** What one log entry promises, given everything before it. */
  ghost predicate EntryOk(before: Log, e: Entry) {
    match e
    case Consumed(t) => LastRequest(before) == Some(t)
    case Read(opts, _, _) => opts == Unread(before)
    case Delivered(id, bytes) =>
      && id in Current(before)
      && Unread(before).None?
      && BytesOut(before) + bytes <= BytesRead(before)
    case Returned(n) =>
      var c := CurrentCall(before);
      n == c.done <= c.size && (n == c.size || c.failed || c.atEos)
    case _ => true
  }

  ghost predicate LogOk(log: Log) {
    forall i :: 0 <= i < |log| ==> EntryOk(log[..i], log[i])
  }

  lemma LogExtend(log: Log, e: Entry)
    requires LogOk(log) && EntryOk(log, e)
    ensures LogOk(log + [e])
  {
    forall i | 0 <= i < |log + [e]| ensures EntryOk((log + [e])[..i], (log + [e])[i]) {
      assert (log + [e])[..i] == log[..i];
      assert log[..|log|] == log;
    }
  }

  function Rest(b: Option<MediaBuffer>): seq<byte> {
    if b.None? then [] else b.value.range
  }

  /** Progress of the call in flight. */
  ghost predicate CallOk(m: Machine) {
    var c := CurrentCall(m.log);
    m.pc.Idle? || (!c.atEos && !c.failed && c.done == m.pc.done && c.done + m.pc.remaining == c.size)
  }

  ghost predicate PcOk(m: Machine) {
    match m.pc
    case Fetching(opts, _, remaining) =>
      && remaining > 0 && Unread(m.log) == opts
      && (opts.Some? ==> m.f.inputBuffer.None? && !m.f.isFirstBuffer)
    case Fetched(err, _, _, remaining) =>
      && remaining > 0 && Unread(m.log).None? && !m.f.isFirstBuffer
      && (err == OK <==> m.f.inputBuffer.Some?)
    case Copying(_, remaining) =>
      remaining > 0 && Unread(m.log).None? && m.f.inputBuffer.Some?
    case _ => Unread(m.log).None?
  }

  /** The inductive invariant. */
  ghost predicate Inv(m: Machine) {
    && Valid(m.f) && LogOk(m.log) && PcOk(m) && CallOk(m)
    && (m.f.seeking ==> LastRequest(m.log) == Some(m.f.seekTimeUs))
    && (m.f.inputBuffer.Some? ==> m.f.inputBuffer.value.id in Current(m.log))
    && (m.f.firstBuffer.Some? ==> m.f.firstBuffer.value.id in Current(m.log))
    && BytesOut(m.log) + Rest(m.f.inputBuffer) + Rest(m.f.firstBuffer) == BytesRead(m.log)
  }

  lemma Last(log: Log, e: Entry)
    ensures (log + [e])[..|log|] == log && (log + [e])[|log|] == e
  {
  }

  /** What one more entry does to everything the invariant says about the log. */
  lemma {:induction false} After(log: Log, e: Entry)
    ensures LastRequest(log + [e]) == if e.Requested? then Some(e.timeUs) else LastRequest(log)
    ensures Unread(log + [e]) == if e.Consumed? then Some(e.timeUs) else if e.Read? then None else Unread(log)
    ensures Current(log + [e])
         == if e.Consumed? then {} else if e.Read? && e.r.Payload? then Current(log) + {e.id} else Current(log)
    ensures BytesRead(log + [e])
         == if e.Consumed? then [] else if e.Read? && e.r.Payload? then BytesRead(log) + e.r.bytes else BytesRead(log)
    ensures BytesOut(log + [e])
         == if e.Consumed? then [] else if e.Delivered? then BytesOut(log) + e.bytes else BytesOut(log)
  {
    Last(log, e);
  }

  lemma {:induction false} CallAfter(log: Log, e: Entry)
    ensures
      var c := CurrentCall(log);
      CurrentCall(log + [e])
      == if e.Called? then Call(e.size, e.atEos, false, 0)
         else if e.ReadFailure? then c.(failed := true)
         else if e.Delivered? then c.(done := c.done + |e.bytes|)
         else c
  {
    Last(log, e);
  }

  /** Appending to the log one entry that keeps its promise. */
  lemma {:induction false} Append(log: Log, e: Entry)
    requires LogOk(log) && EntryOk(log, e)
    ensures LogOk(log + [e])
    ensures LastRequest(log + [e]) == if e.Requested? then Some(e.timeUs) else LastRequest(log)
    ensures Unread(log + [e]) == if e.Consumed? then Some(e.timeUs) else if e.Read? then None else Unread(log)
    ensures Current(log + [e])
         == if e.Consumed? then {} else if e.Read? && e.r.Payload? then Current(log) + {e.id} else Current(log)
    ensures BytesRead(log + [e])
         == if e.Consumed? then [] else if e.Read? && e.r.Payload? then BytesRead(log) + e.r.bytes else BytesRead(log)
    ensures BytesOut(log + [e])
         == if e.Consumed? then [] else if e.Delivered? then BytesOut(log) + e.bytes else BytesOut(log)
    ensures
      var c := CurrentCall(log);
      CurrentCall(log + [e])
      == if e.Called? then Call(e.size, e.atEos, false, 0)
         else if e.ReadFailure? then c.(failed := true)
         else if e.Delivered? then c.(done := c.done + |e.bytes|)
         else c
  {
    hide LastRequest, Unread, Current, BytesRead, BytesOut, CurrentCall, LogOk, EntryOk;
    LogExtend(log, e);
    After(log, e);
    CallAfter(log, e);
  }

  lemma TopKeeps(m: Machine)
    requires Inv(m) && m.pc.Top?
    ensures Inv(AdvanceTop(m))
  {
    hide LastRequest, Unread, Current, BytesRead, BytesOut, CurrentCall, LogOk;
    if m.pc.remaining == 0 {
      Append(m.log, Returned(m.pc.done));
    } else {
      SectionsKeep(m.f, Payload([]), 0);
      if m.f.seeking { Append(m.log, Consumed(m.f.seekTimeUs)); }
    }
  }

  lemma FetchingKeeps(m: Machine, rr: ReadResult)
    requires Inv(m) && m.pc.Fetching?
    ensures Inv(AdvanceFetching(m, rr))
  {
    hide LastRequest, Unread, Current, BytesRead, BytesOut, CurrentCall, LogOk;
    if m.f.inputBuffer.Some? {
    } else {
      SectionsKeep(m.f, rr, 0);
      if m.f.isFirstBuffer { FetchingStash(m, rr); } else { FetchingRead(m, rr); }
    }
  }

  lemma FetchingStash(m: Machine, rr: ReadResult)
    requires Inv(m) && m.pc.Fetching? && m.f.inputBuffer.None? && m.f.isFirstBuffer && Valid(Obtain(m.f, rr).0)
    ensures Inv(AdvanceFetching(m, rr))
  {
    hide LastRequest, Unread, Current, BytesRead, BytesOut, CurrentCall, LogOk, LoansBalance;
  }

  lemma FetchingRead(m: Machine, rr: ReadResult)
    requires Inv(m) && m.pc.Fetching? && m.f.inputBuffer.None? && !m.f.isFirstBuffer && Valid(Obtain(m.f, rr).0)
    ensures Inv(AdvanceFetching(m, rr))
  {
    hide LastRequest, Unread, Current, BytesRead, BytesOut, CurrentCall, LogOk, LoansBalance;
    Append(m.log, Read(m.pc.opts, m.f.acquired, rr));
  }

  lemma FetchedKeeps(m: Machine)
    requires Inv(m) && m.pc.Fetched?
    ensures Inv(AdvanceFetched(m))
  {
    hide LastRequest, Unread, Current, BytesRead, BytesOut, CurrentCall, LogOk;
    if m.pc.err != OK {
      var l1 := m.log + [ReadFailure(m.pc.err)];
      Append(m.log, ReadFailure(m.pc.err));
      Append(l1, Returned(m.pc.done));
      assert m.log + [ReadFailure(m.pc.err), Returned(m.pc.done)] == l1 + [Returned(m.pc.done)];
    }
  }

  lemma CopyingKeeps(m: Machine)
    requires Inv(m) && m.pc.Copying?
    ensures m.f.inputBuffer.Some? && Inv(AdvanceCopying(m))
  {
    hide LastRequest, Unread, Current, BytesRead, BytesOut, CurrentCall, LogOk;
    SectionsKeep(m.f, Payload([]), m.pc.remaining);
    var b := m.f.inputBuffer.value;
    var bytes := Copy(m.f, m.pc.remaining).1;
    assert m.f.firstBuffer.None?;
    if bytes != [] {
      assert bytes + b.range[|bytes|..] == b.range;
      assert BytesRead(m.log) == (BytesOut(m.log) + bytes) + b.range[|bytes|..];
      Append(m.log, Delivered(b.id, bytes));
    }
  }

  lemma FillKeeps(m: Machine, size: nat)
    requires Inv(m) && m.pc.Idle?
    ensures Inv(BeginFill(m, size))
  {
    hide LastRequest, Unread, Current, BytesRead, BytesOut, CurrentCall, LogOk;
    var e := Called(size, m.f.reachedEOS);
    Append(m.log, e);
    if m.f.reachedEOS { Append(m.log + [e], Returned(0)); }
  }

  lemma SeekKeeps(m: Machine, t: int)
    requires Inv(m)
    ensures Inv(Next(m, SeekTo(t)))
  {
    hide LastRequest, Unread, Current, BytesRead, BytesOut, CurrentCall, LogOk;
    Append(m.log, Requested(t));
  }

  lemma StreamEndKeeps(m: Machine)
    requires Inv(m)
    ensures Inv(Next(m, StreamEnd))
  {
    hide LastRequest, Unread, Current, BytesRead, BytesOut, CurrentCall, LogOk;
  }

  /** Every step of every thread keeps the invariant. */
  lemma NextKeeps(m: Machine, e: Event)
    requires Inv(m)
    ensures Inv(Next(m, e))
  {
    hide Inv, BeginFill, AdvanceTop, AdvanceFetching, AdvanceFetched, AdvanceCopying;
    match e
    case SeekTo(t) => SeekKeeps(m, t);
    case StreamEnd => StreamEndKeeps(m);
    case Fill(size) => if m.pc.Idle? { FillKeeps(m, size); }
    case Advance(rr) =>
      match m.pc
      case Idle =>
      case Top(_, _) => TopKeeps(m);
      case Fetching(_, _, _) => FetchingKeeps(m, rr);
      case Fetched(_, _, _, _) => FetchedKeeps(m);
      case Copying(_, _) => CopyingKeeps(m);
  }

  lemma AfterStartInv(offload: bool, early: Option<int>, rr: ReadResult)
    ensures Inv(AfterStart(offload, early, rr))
  {
    var m := AfterStart(offload, early, rr);
    StartKeeps(if early.None? then Fresh else Seek(Fresh, early.value), rr, Started);
    var read := Read(early, 0, rr);
    if early.None? {
      LogExtend([], read);
      assert m.log == [] + [read];
    } else {
      var l1 := [Requested(early.value)];
      var l2 := [Requested(early.value), Consumed(early.value)];
      LogExtend([], Requested(early.value));
      Last([], Requested(early.value));
      assert [] + l1 == l1 && l2 == l1 + [Consumed(early.value)];
      LogExtend(l1, Consumed(early.value));
      Last(l1, Consumed(early.value));
      LogExtend(l2, read);
      Last(l2, read);
    }
  }

  lemma {:induction false} RunInv(m: Machine, es: seq<Event>)
    requires Inv(m)
    ensures Inv(Run(m, es))
  {
    if es == [] {
    } else {
      RunInv(m, es[..|es| - 1]);
      NextKeeps(Run(m, es[..|es| - 1]), es[|es| - 1]);
    }
  }

  /**
    Main theorem, over every interleaving of seeks, stream-end reports and callback
    steps after a successful start:
    - a pending seek carries the most recently requested time;
    - each log entry is right: a consumed seek is the latest request, a source read
      carries exactly the seek consumed since the previous read, delivered bytes come
      from a buffer read after the last consumed seek and continue, in order, the bytes
      read since then, and a call comes back short only after a failed read or at EOS;
    - every loan is either released or in exactly one slot.
  */
  lemma {:induction false} EveryInterleavingIsSafe(offload: bool, early: Option<int>, rr: ReadResult, es: seq<Event>)
    ensures
      var m := Run(AfterStart(offload, early, rr), es);
      && (m.f.seeking ==> LastRequest(m.log) == Some(m.f.seekTimeUs))
      && LogOk(m.log)
      && BytesOut(m.log) <= BytesRead(m.log)
      && LoansBalance(m.f)
  {
    AfterStartInv(offload, early, rr);
    RunInv(AfterStart(offload, early, rr), es);
  }

  /** ... and a reset at any quiet moment of any run leaves no loan out and none given back twice. */
  lemma {:induction false} ResetAfterAnyRun(offload: bool, early: Option<int>, rr: ReadResult, es: seq<Event>, id: nat)
    ensures
      var f := Run(AfterStart(offload, early, rr), es).f;
      && Reset(f).inputBuffer.None? && Reset(f).firstBuffer.None?
      && Times(Reset(f).released, id) == if id < f.acquired then 1 else 0
  {
    AfterStartInv(offload, early, rr);
    RunInv(AfterStart(offload, early, rr), es);
    ResetReleasesEachLoanOnce(Run(AfterStart(offload, early, rr), es).f, id);
  }

  // -------------------------------------------------------------- a stuck seek

  /** No call is in flight, the stream has ended, and a seek is pending: every call will return at once. */
  predicate Stuck(m: Machine) { m.pc.Idle? && m.f.seeking && m.f.reachedEOS }

  /**
    The steps that leave a seek stuck: the sink reports the end of the stream between calls; a
    call ends with the end of the stream already known; or a read fails, and with that comes
    the end of the stream, unless offloading, or it had come before.
  */
  lemma StuckExactlyWhen(m: Machine, e: Event)
    requires !Stuck(m)
    ensures Stuck(Next(m, e))
       <==> && m.f.seeking
            && (|| (e.StreamEnd? && m.pc.Idle?)
                || (e.Advance? && m.pc.Top? && m.pc.remaining == 0 && m.f.reachedEOS)
                || (e.Advance? && m.pc.Fetched? && m.pc.err != OK && (m.f.reachedEOS || !m.offload)))
  {
  }

  predicate OnlyEmptyCalls(before: Log, after: Log) {
    && before <= after
    && forall i :: |before| <= i < |after| ==> after[i].Called? || after[i] == Returned(0)
  }

  /** Once stuck, it stays so until the next `seekTo`: no call reads, consumes or delivers anything. */
  lemma {:induction false} StuckUntilSeek(m: Machine, es: seq<Event>)
    requires Stuck(m) && forall e :: e in es ==> !e.SeekTo?
    ensures Stuck(Run(m, es)) && Run(m, es).f == m.f && OnlyEmptyCalls(m.log, Run(m, es).log)
  {
    if es == [] {
    } else {
      var front := es[..|es| - 1];
      assert es == front + [es[|es| - 1]];
      StuckUntilSeek(m, front);
    }
  }

  /** Between calls, the next call consumes a pending seek exactly when it is not stuck and the call asks for data. */
  lemma NextCallServesSeek(m: Machine, size: nat, rr: ReadResult)
    requires m.pc.Idle? && m.f.seeking
    ensures
      var n := Next(Next(m, Fill(size)), Advance(rr));
      && (n.log == m.log + [Called(size, m.f.reachedEOS), Consumed(m.f.seekTimeUs)] <==> !Stuck(m) && size > 0)
      && (n.f.seeking <==> Stuck(m) || size == 0)
  {
    var called, consumed := Called(size, m.f.reachedEOS), Consumed(m.f.seekTimeUs);
    assert m.log + [called] + [consumed] == m.log + [called, consumed];
    assert (m.log + [called, consumed])[|m.log| + 1] == consumed;
    assert (m.log + [called] + [Returned(0)])[|m.log| + 1] == Returned(0);
  }

  /** The end of the stream in the middle of a call does no harm to a seek that the call still comes to. */
  lemma LateEndServed(t: int)
    ensures
      var m0 := AfterStart(false, None, Failed(INFO_FORMAT_CHANGED));
      var m := Run(m0, [Fill(4), SeekTo(t), StreamEnd]);
      m.f.seeking && m.f.reachedEOS && !Stuck(m) && Next(m, Advance(Payload([]))).log == m.log + [Consumed(t)]
  {
    var m0 := AfterStart(false, None, Failed(INFO_FORMAT_CHANGED));
    RunStep(m0, [], Fill(4));
    RunStep(m0, [Fill(4)], SeekTo(t));
    RunStep(m0, [Fill(4), SeekTo(t)], StreamEnd);
    assert [] + [Fill(4)] == [Fill(4)] && [Fill(4)] + [SeekTo(t)] == [Fill(4), SeekTo(t)];
    assert [Fill(4), SeekTo(t)] + [StreamEnd] == [Fill(4), SeekTo(t), StreamEnd];
  }

  /** A player with nothing stashed; a call; a seek during its read; the read fails. */
  lemma SeekDuringFailedRead(t: int)
    ensures
      var m0 := AfterStart(false, None, Failed(INFO_FORMAT_CHANGED));
      var m := Run(m0, [Fill(4), Advance(Payload([])), Advance(Failed(ERROR_END_OF_STREAM)), SeekTo(t), Advance(Payload([]))]);
      Stuck(m) && m.f.seekTimeUs == t
  {
    var m0 := AfterStart(false, None, Failed(INFO_FORMAT_CHANGED));
    var es := [Fill(4), Advance(Payload([])), Advance(Failed(ERROR_END_OF_STREAM)), SeekTo(t), Advance(Payload([]))];
    RunStep(m0, [], es[0]);
    RunStep(m0, es[..1], es[1]);
    RunStep(m0, es[..2], es[2]);
    RunStep(m0, es[..3], es[3]);
    RunStep(m0, es[..4], es[4]);
    assert es[..1] == [] + [es[0]] && es[..2] == es[..1] + [es[1]] && es[..3] == es[..2] + [es[2]];
    assert es[..4] == es[..3] + [es[3]] && es == es[..4] + [es[4]];
  }

  lemma {:induction false} RunStep(m: Machine, es: seq<Event>, e: Event)
    ensures Run(m, es + [e]) == Next(Run(m, es), e)
  {
    assert (es + [e])[..|es|] == es;
  }

  // -------------------------------------------------------------- the player

  /** All bytes the source hands over in a run of reads. */
  function Payloads(rs: seq<ReadResult>): seq<byte> {
    if rs == [] then []
    else Payloads(rs[..|rs| - 1]) + match rs[|rs| - 1] case Payload(bytes) => bytes case Failed(_) => []
  }

  lemma PayloadsNone()
    ensures Payloads([]) == []
  {
  }

  lemma {:induction false} PayloadsConcat(xs: seq<ReadResult>, ys: seq<ReadResult>)
    ensures Payloads(xs + ys) == Payloads(xs) + Payloads(ys)
  {
    if ys == [] {
      assert xs + ys == xs;
    } else {
      assert (xs + ys)[..|xs + ys| - 1] == xs + ys[..|ys| - 1];
      PayloadsConcat(xs, ys[..|ys| - 1]);
    }
  }

  function Pending(f: Fields): seq<byte> { Rest(f.inputBuffer) + Rest(f.firstBuffer) }

  /**
    `err` comes from a read of this call: the stashed first result, the last of the reads
    `used`, or the end of a source that has nothing left to answer.
  */
  ghost predicate ReadFailed(f: Fields, used: seq<ReadResult>, rest: seq<ReadResult>, err: int) {
    || (used == [] && !f.seeking && f.isFirstBuffer && err == f.firstBufferResult)
    || (used != [] && used[|used| - 1].Failed? && err == used[|used| - 1].err)
    || (rest == [] && err == ERROR_END_OF_STREAM)
  }

  /** No section invents, loses or reorders a pending byte, except that a seek drops them all. */
  lemma PendingThroughSections(f: Fields, rr: ReadResult, remaining: nat)
    requires Valid(f)
    ensures Pending(SeekSection(f).0) == if f.seeking then [] else Pending(f)
    ensures f.inputBuffer.None? ==>
      Pending(Obtain(f, rr).0) == Pending(f) + if f.isFirstBuffer || rr.Failed? then [] else rr.bytes
    ensures f.inputBuffer.Some? ==>
      Copy(f, remaining).1 + Pending(Copy(f, remaining).0) == Pending(f)
  {
    hide SeekSection, Obtain, Copy;
    PendingSeek(f);
    if f.inputBuffer.None? { PendingObtain(f, rr); } else { PendingCopy(f, remaining); }
  }

  lemma PendingSeek(f: Fields)
    requires Valid(f)
    ensures Pending(SeekSection(f).0) == if f.seeking then [] else Pending(f)
  {
  }

  lemma PendingObtain(f: Fields, rr: ReadResult)
    requires Valid(f) && f.inputBuffer.None?
    ensures Pending(Obtain(f, rr).0) == Pending(f) + if f.isFirstBuffer || rr.Failed? then [] else rr.bytes
  {
  }

  lemma PendingCopy(f: Fields, remaining: nat)
    requires Valid(f) && f.inputBuffer.Some?
    ensures Copy(f, remaining).1 + Pending(Copy(f, remaining).0) == Pending(f)
  {
  }

  lemma Glue(out: seq<byte>, held: seq<byte>, base: seq<byte>, read: seq<byte>, added: seq<byte>, rest: seq<byte>, more: seq<byte>)
    requires out + held == base + read && added + rest == held + more
    ensures (out + added) + rest == base + (read + more)
  {
    assert (out + added) + rest == out + (added + rest);
    assert out + (held + more) == (out + held) + more;
  }

  lemma TailKept(now: seq<byte>, mid: seq<byte>, first: seq<byte>, done: nat, n: nat)
    requires |now| == |mid| == |first| && done + n <= |now|
    requires mid[done..] == first[done..] && now[done + n..] == mid[done + n..]
    ensures now[done + n..] == first[done + n..]
  {
    assert mid[done + n..] == mid[done..][n..];
    assert first[done + n..] == first[done..][n..];
  }

  lemma HeadGrows(now: seq<byte>, mid: seq<byte>, done: nat, n: nat)
    requires |now| == |mid| && done + n <= |now| && now[..done] == mid[..done]
    ensures now[..done + n] == mid[..done] + now[done..done + n]
  {
    assert now[..done + n] == now[..done] + now[done..done + n];
  }

  /** A read that failed in a later turn failed in the call. */
  lemma FailedLater(f: Fields, before: Fields, used: seq<ReadResult>, more: seq<ReadResult>, rest: seq<ReadResult>, err: int)
    requires ReadFailed(before, more, rest, err)
    requires before.isFirstBuffer ==> used == [] && before == f
    ensures ReadFailed(f, used + more, rest, err)
  {
    if used == [] { assert used + more == more; }
  }

  class AudioPlayer {
    const offload: bool
    var inputBuffer: Option<MediaBuffer>
    var firstBuffer: Option<MediaBuffer>
    var isFirstBuffer: bool
    var firstBufferResult: int
    var seeking: bool
    var seekTimeUs: int
    var reachedEOS: bool
    var finalStatus: int
    var acquired: nat
    var released: seq<nat>
    /** What the source will answer, read by read; then end of stream for ever. */
    var script: seq<ReadResult>

    function View(): Fields
      reads this
    {
      Fields(inputBuffer, firstBuffer, isFirstBuffer, firstBufferResult, seeking, seekTimeUs,
             reachedEOS, finalStatus, acquired, released)
    }

    constructor (offload: bool, script: seq<ReadResult>)
      ensures View() == Fresh && this.offload == offload && this.script == script
    {
      this.offload, this.script := offload, script;
      inputBuffer, firstBuffer, isFirstBuffer, firstBufferResult := None, None, false, OK;
      seeking, seekTimeUs, reachedEOS, finalStatus := false, 0, false, OK;
      acquired, released := 0, [];
    }

    method SeekTo(timeUs: int)
      modifies this
      ensures View() == Seek(old(View()), timeUs) && script == old(script)
    {
      seeking := true;
      reachedEOS := false;
      seekTimeUs := timeUs;
    }

    method ReadSource() returns (rr: ReadResult)
      modifies `script
      ensures old(script) == [] ==> rr == Failed(ERROR_END_OF_STREAM) && script == []
      ensures old(script) != [] ==> rr == old(script)[0] && script == old(script)[1..]
    {
      if script == [] {
        rr := Failed(ERROR_END_OF_STREAM);
      } else {
        rr, script := script[0], script[1..];
      }
    }

    method ReleaseFirstBuffer()
      modifies `firstBuffer, `released
      ensures View() == ReleaseFirst(old(View()))
    {
      if firstBuffer.Some? {
        released := released + [firstBuffer.value.id];
        firstBuffer := None;
      }
    }

    method ReleaseInputBuffer()
      modifies `inputBuffer, `released
      ensures View() == ReleaseInput(old(View()))
    {
      if inputBuffer.Some? {
        released := released + [inputBuffer.value.id];
        inputBuffer := None;
      }
    }

    method Stash(rr: ReadResult)
      modifies this
      requires firstBuffer.None?
      ensures View() == StartRead(old(View()), rr) && script == old(script)
    {
      seeking := false;
      match rr {
        case Payload(bytes) =>
          firstBuffer := Some(MediaBuffer(acquired, bytes));
          acquired := acquired + 1;
          firstBufferResult := OK;
          isFirstBuffer := true;
        case Failed(err) =>
          firstBufferResult := if err == INFO_FORMAT_CHANGED then OK else err;
          isFirstBuffer := err != INFO_FORMAT_CHANGED;
      }
    }

    method StartPlaying(outcome: StartOutcome) returns (rr: ReadResult)
      requires firstBuffer.None?
      modifies this
      ensures View() == Start(old(View()), rr, outcome)
      ensures outcome.SourceFailed? ==> script == old(script)
      ensures !outcome.SourceFailed? && old(script) == [] ==> rr == Failed(ERROR_END_OF_STREAM) && script == []
      ensures !outcome.SourceFailed? && old(script) != [] ==> rr == old(script)[0] && script == old(script)[1..]
    {
      hide StartRead;
      rr := Payload([]);
      if outcome.SourceFailed? {
        return;
      }
      rr := ReadSource();
      Stash(rr);
      if outcome.DeviceFailed? {
        ReleaseFirstBuffer();
      }
    }

    method ResetPlayer()
      modifies this
      ensures View() == Reset(old(View()))
    {
      ReleaseFirstBuffer();
      ReleaseInputBuffer();
      seeking, seekTimeUs, reachedEOS, finalStatus := false, 0, false, OK;
    }

    method ConsumeSeek() returns (opts: Option<int>)
      modifies this
      ensures (View(), opts) == SeekSection(old(View())) && script == old(script)
    {
      opts := None;
      if seeking {
        if isFirstBuffer {
          ReleaseFirstBuffer();
          isFirstBuffer := false;
        }
        opts := Some(seekTimeUs);
        ReleaseInputBuffer();
        seeking := false;
      }
    }

    method ObtainBuffer() returns (err: int, ghost rr: ReadResult)
      requires inputBuffer.None?
      modifies this
      ensures (View(), err) == Obtain(old(View()), rr)
      ensures old(isFirstBuffer) || old(script) == [] ==> script == old(script)
      ensures !old(isFirstBuffer) && old(script) == [] ==> rr == Failed(ERROR_END_OF_STREAM)
      ensures !old(isFirstBuffer) && old(script) != [] ==> rr == old(script)[0] && script == old(script)[1..]
    {
      rr := Payload([]);
      if isFirstBuffer {
        inputBuffer := firstBuffer;
        firstBuffer := None;
        err := firstBufferResult;
        isFirstBuffer := false;
      } else {
        var answer := ReadSource();
        rr := answer;
        match answer {
          case Payload(bytes) =>
            inputBuffer := Some(MediaBuffer(acquired, bytes));
            acquired := acquired + 1;
            err := OK;
          case Failed(e) => err := e;
        }
      }
    }

    method FinishRead(err: int, refresh: bool)
      modifies this
      ensures View() == AfterRead(old(View()), offload, err, refresh) && script == old(script)
    {
      if err != OK {
        if !reachedEOS && !offload {
          reachedEOS := true;
        }
        finalStatus := err;
      } else if refresh && !seeking {
        seekTimeUs := 0;
      }
    }

    method CopyOut(data: array<byte>, done: nat, remaining: nat) returns (n: nat)
      requires inputBuffer.Some? && remaining > 0 && done + remaining <= data.Length
      modifies `inputBuffer, `released, data
      ensures View() == Copy(old(View()), remaining).0
      ensures n == |Copy(old(View()), remaining).1| <= remaining
      ensures data[..done] == old(data[..done]) && data[done + n..] == old(data[done + n..])
      ensures data[done..done + n] == Copy(old(View()), remaining).1
      ensures n == 0 ==> inputBuffer.None?
    {
      var b := inputBuffer.value;
      if |b.range| == 0 {
        ReleaseInputBuffer();
        n := 0;
      } else {
        n := if remaining > |b.range| then |b.range| else remaining;
        forall i | 0 <= i < n {
          data[done + i] := b.range[i];
        }
        inputBuffer := Some(b.(range := b.range[n..]));
      }
    }

    /** The stream the player owes its sink, from here on, if the source is read for `used`. */
    ghost function Owed(used: seq<ReadResult>): seq<byte>
      reads this
    {
      (if seeking then [] else Pending(View())) + Payloads(used)
    }

    /** One turn of the loop up to the copy: afterwards a buffer is held, or the read failed. */
    method Refill() returns (err: int, ghost used: seq<ReadResult>)
      requires Valid(View())
      modifies this
      ensures Valid(View()) && !seeking && !isFirstBuffer
      ensures used + script == old(script)
      ensures Pending(View()) == old(Owed(used))
      ensures err != OK ==> finalStatus == err && (!offload ==> reachedEOS)
      ensures err != OK ==> ReadFailed(old(View()), used, script, err)
      ensures err == OK ==> inputBuffer.Some?
      ensures err == OK && used == [] && inputBuffer != old(inputBuffer) ==> old(isFirstBuffer)
    {
      SectionsKeep(View(), Payload([]), 0);
      PendingThroughSections(View(), Payload([]), 0);
      var opts := ConsumeSeek();
      err, used := OK, [];
      if inputBuffer.None? {
        ghost var f := View();
        ghost var rr;
        err, rr := ObtainBuffer();
        SectionsKeep(f, rr, 0);
        PendingThroughSections(f, rr, 0);
        if script != old(script) { used := [rr]; }
        assert Payloads([rr]) == if rr.Failed? then [] else rr.bytes;
        FinishRead(err, opts.Some?);
      }
    }

    /** One whole turn: `n` more bytes of the stream owed are in `data`. */
    method Turn(data: array<byte>, done: nat, remaining: nat) returns (err: int, n: nat, ghost used: seq<ReadResult>)
      requires Valid(View()) && remaining > 0 && done + remaining <= data.Length
      modifies this, data
      ensures Valid(View()) && !seeking && !isFirstBuffer && n <= remaining
      ensures used + script == old(script)
      ensures data[..done] == old(data[..done])
      ensures data[done..done + n] + Pending(View()) == old(Owed(used))
      ensures data[done + n..] == old(data[done + n..])
      ensures err != OK ==> n == 0 && finalStatus == err && (!offload ==> reachedEOS)
      ensures err != OK ==> ReadFailed(old(View()), used, script, err)
      ensures err == OK && n == 0 && used == [] ==> old(isFirstBuffer) || (old(inputBuffer.Some?) && inputBuffer.None?)
    {
      hide Valid, Pending, Payloads, Copy, ReadFailed, SeekSection, Obtain;
      err, used := Refill();
      n := 0;
      if err == OK {
        ghost var f := View();
        SectionsKeep(f, Payload([]), remaining);
        PendingThroughSections(f, Payload([]), remaining);
        n := CopyOut(data, done, remaining);
      }
    }

    /**
      A call with no seek arriving in the middle.  The bytes handed out, followed by what
      is still held, are what was held before (nothing, if a seek was pending) followed by
      the payloads read during the call; the call is short only at EOS or because a read in
      this very call failed, with the status it returns.
    */
    method FillBuffer(data: array<byte>, size: nat) returns (done: nat, err: int, ghost used: seq<ReadResult>)
      requires Valid(View()) && size <= data.Length
      modifies this, data
      ensures Valid(View())
      ensures done <= size && data[done..] == old(data[done..])
      ensures used + script == old(script)
      ensures old(reachedEOS) || size == 0 ==> done == 0 && used == [] && View() == old(View())
      ensures !old(reachedEOS) && size > 0 ==> !seeking && data[..done] + Pending(View()) == old(Owed(used))
      ensures done < size && !old(reachedEOS) ==> err != OK
      ensures err != OK ==> finalStatus == err && (!offload ==> reachedEOS) && ReadFailed(old(View()), used, script, err)
    {
      hide Valid, Pending, Payloads, ReadFailed;
      done, err, used := 0, OK, [];
      if reachedEOS {
        return;
      }
      PayloadsNone();
      var remaining := size;
      ghost var f0, first := View(), data[..];
      ghost var base := if seeking then [] else Pending(f0);
      while remaining > 0
        invariant done + remaining == size && Valid(View())
        invariant data[..][done..] == first[done..]
        invariant used + script == old(script)
        invariant seeking || isFirstBuffer || size == 0 ==> done == 0 && used == [] && View() == f0
        invariant !seeking ==> data[..][..done] + Pending(View()) == base + Payloads(used)
        invariant err == OK
        decreases remaining, |script|, isFirstBuffer, inputBuffer.Some?
      {
        ghost var before, mid, held := View(), data[..], if seeking then [] else Pending(View());
        ghost var more;
        var n;
        err, n, more := Turn(data, done, remaining);
        TailKept(data[..], mid, first, done, n);
        HeadGrows(data[..], mid, done, n);
        if err != OK { FailedLater(f0, before, used, more, script, err); }
        PayloadsConcat(used, more);
        Glue(mid[..done], held, base, Payloads(used), data[..][done..done + n], Pending(View()), Payloads(more));
        used := used + more;
        done, remaining := done + n, remaining - n;
        if err != OK {
          break;
        }
      }
      assert data[done..] == data[..][done..] && data[..done] == data[..][..done];
    }
  }
}
