/**
  The overlay thread of cmds/screenrecord/Overlay.cpp.  `start`, the thread, the frame
  callbacks and `stop` share the fields below under one mutex and meet on two condition
  variables.  Every section between acquiring the mutex and releasing it (or waiting) is
  one step; a waiter is asleep until it is signalled, or wakes up on its own, and then
  competes for the mutex.
*/
module OverlayModel {
  import opened Basics

  datatype Phase = UNINITIALIZED | INIT | RUNNING | STOPPING | STOPPED

  /** "States advance from left to right." */
  function Rank(p: Phase): nat {
    match p case UNINITIALIZED => 0 case INIT => 1 case RUNNING => 2 case STOPPING => 3 case STOPPED => 4
  }

  datatype Starter = Before | Waiting(signalled: bool) | Returned(ok: bool)

  datatype Worker = Unborn | Ready | Asleep(signalled: bool) | Gone

  /** Frame accounting: the last frame number, the dropped count, and every frame processed. */
  datatype Frames = Frames(last: int, dropped: int, processed: seq<int>)

  datatype State = State(
    phase: Phase,
    frameAvailable: bool,
    threadOk: bool,          // mThreadResult == NO_ERROR
    resources: bool,         // window, programs and consumer are held
    frames: Frames,
    starter: Starter,
    worker: Worker,
    stopCalled: bool)

  const Fresh := State(UNINITIALIZED, false, false, false, Frames(-1, 0, []), Before, Unborn, false)

  datatype Event =
    | Start                    // start(): up to the wait on the start condition
    | StarterWakes             // start(): after the wait
    | Setup(ok: bool)          // threadLoop(): setup_l and the first test of the loop
    | FrameArrives             // onFrameAvailable()
    | WorkerWakes(frame: int)  // threadLoop(): one turn after the wait
    | Stop                     // stop()

  // --------------------------------------------------------------------- steps

  /** `processFrame_l`, as far as it counts frames. */
  function Process(f: Frames, frame: int): Frames {
    Frames(frame, if f.last > 0 then f.dropped + (frame - f.last) - 1 else f.dropped, f.processed + [frame])
  }

  function WakeStarter(s: Starter): Starter { if s.Waiting? then Waiting(true) else s }

  function WakeWorker(w: Worker): Worker { if w.Asleep? then Asleep(true) else w }

  function DoStart(s: State): State { s.(phase := INIT, starter := Waiting(false), worker := Ready) }

  function DoStarterWakes(s: State): State {
    s.(starter := if s.phase == INIT then Waiting(false) else Returned(s.threadOk))
  }

  function DoSetup(s: State, ok: bool): State {
    if ok then s.(threadOk := true, resources := true, phase := RUNNING, starter := WakeStarter(s.starter), worker := Asleep(false))
    else s.(threadOk := false, resources := false, phase := STOPPED, starter := WakeStarter(s.starter), worker := Gone)
  }

  function DoFrameArrives(s: State): State { s.(frameAvailable := true, worker := WakeWorker(s.worker)) }

  function DoWorkerWakes(s: State, frame: int): State {
    var s1 := if s.frameAvailable then s.(frames := Process(s.frames, frame), frameAvailable := false) else s;
    if s.phase == RUNNING then s1.(worker := Asleep(false))
    else s1.(resources := false, phase := STOPPED, worker := Gone)
  }

  function DoStop(s: State): State { s.(phase := STOPPING, worker := WakeWorker(s.worker), stopCalled := true) }

  /** One step; one `stop`, after a successful `start`; a step that is not enabled changes nothing. */
  function Next(s: State, e: Event): State {
    match e
    case Start => if s.starter.Before? then DoStart(s) else s
    case StarterWakes => if s.starter.Waiting? then DoStarterWakes(s) else s
    case Setup(ok) => if s.worker.Ready? then DoSetup(s, ok) else s
    case FrameArrives => if s.threadOk then DoFrameArrives(s) else s
    case WorkerWakes(frame) => if s.worker.Asleep? then DoWorkerWakes(s, frame) else s
    case Stop => if s.starter == Returned(true) && !s.stopCalled then DoStop(s) else s
  }

  function Run(es: seq<Event>): State {
    if es == [] then Fresh else Next(Run(es[..|es| - 1]), es[|es| - 1])
  }

  // ----------------------------------------------------------------- invariant

  ghost predicate Inv(s: State) {
    && (s.worker.Unborn? <==> s.phase == UNINITIALIZED)
    && (s.worker.Ready? <==> s.phase == INIT)
    && (s.worker.Asleep? <==> s.phase == RUNNING || s.phase == STOPPING)
    && (s.worker.Gone? <==> s.phase == STOPPED)
    && (s.starter.Before? <==> s.phase == UNINITIALIZED)
    && (s.starter.Returned? ==> s.starter.ok == s.threadOk && s.phase != INIT)
    && (s.starter == Waiting(false) ==> s.phase == INIT)
    && (s.worker == Asleep(false) ==> !s.frameAvailable && s.phase == RUNNING)
    && (s.phase == STOPPING ==> s.stopCalled)
    && (s.stopCalled ==> s.starter == Returned(true) && (s.phase == STOPPING || s.phase == STOPPED))
    && (s.resources <==> s.worker.Asleep?)
    && (s.threadOk ==> s.phase != UNINITIALIZED && s.phase != INIT)
    && (s.phase == RUNNING ==> s.threadOk)
    && (s.phase == STOPPED && s.threadOk ==> s.stopCalled)
    && (s.frameAvailable ==> s.threadOk)
  }

  lemma NextKeeps(s: State, e: Event)
    requires Inv(s)
    ensures Inv(Next(s, e))
    ensures Rank(s.phase) <= Rank(Next(s, e).phase)
  {
  }

  lemma {:induction false} RunInv(es: seq<Event>)
    ensures Inv(Run(es))
  {
    if es == [] {
    } else {
      RunInv(es[..|es| - 1]);
      NextKeeps(Run(es[..|es| - 1]), es[|es| - 1]);
    }
  }

  /** The phase never moves backwards, from any moment of a run to any later one. */
  lemma {:induction false} PhaseAdvances(es: seq<Event>, k: nat)
    requires k <= |es|
    ensures Rank(Run(es[..k]).phase) <= Rank(Run(es).phase)
    decreases |es|
  {
    if k < |es| {
      var front := es[..|es| - 1];
      PhaseAdvances(front, k);
      assert front[..k] == es[..k];
      RunInv(front);
      NextKeeps(Run(front), es[|es| - 1]);
    } else {
      assert es[..k] == es;
    }
  }

  /**
    Main theorem, after any run: nobody sleeps through an event.  The worker is asleep without
    a signal only with no frame pending and no stop requested; the starter only while the
    thread has not come up; resources are held exactly while the worker is alive.
  */
  lemma {:induction false} NoLostWakeUp(es: seq<Event>)
    ensures
      var s := Run(es);
      && (s.worker == Asleep(false) ==> !s.frameAvailable && !s.stopCalled && s.phase == RUNNING)
      && (s.starter == Waiting(false) ==> s.phase == INIT && s.worker.Ready?)
      && (s.resources <==> s.worker.Asleep?)
  {
    RunInv(es);
  }

  /** When `start` returns success the phase is RUNNING, as its assertion says. */
  lemma {:induction false} StartAssertion(es: seq<Event>)
    requires Run(es).starter.Waiting? && Next(Run(es), StarterWakes).starter == Returned(true)
    ensures Next(Run(es), StarterWakes).phase == RUNNING
  {
    RunInv(es);
  }

  /** After `stop`, the worker's next wake-up is its last: it serves a pending frame, lets go and stops. */
  lemma {:induction false} StopEndsWorker(es: seq<Event>, frame: int)
    requires Run(es).stopCalled && Run(es).phase != STOPPED
    ensures
      var s := Run(es);
      var t := Next(s, WorkerWakes(frame));
      && s.worker == Asleep(true)
      && t.phase == STOPPED && t.worker.Gone? && !t.resources && !t.frameAvailable
      && t.frames == if s.frameAvailable then Process(s.frames, frame) else s.frames
  {
    RunInv(es);
  }

  // ------------------------------------------------------------- stop at any time

  /** One step when `stop` may come at any moment, any number of times. */
  function Free(s: State, e: Event): State { if e.Stop? then DoStop(s) else Next(s, e) }

  function FreeFrom(s: State, es: seq<Event>): State {
    if es == [] then s else Free(FreeFrom(s, es[..|es| - 1]), es[|es| - 1])
  }

  ghost predicate FreeInv(s: State) {
    && (s.worker.Unborn? <==> s.starter.Before?)
    && (s.worker.Unborn? ==> s.phase == UNINITIALIZED || s.phase == STOPPING)
    && (s.worker.Ready? ==> s.phase == INIT || s.phase == STOPPING)
    && (s.worker.Asleep? ==> s.phase == RUNNING || s.phase == STOPPING)
    && (s.worker.Gone? ==> s.phase == STOPPED || s.phase == STOPPING)
    && (s.worker.Unborn? || s.worker.Ready? ==> !s.threadOk)
    && (s.frameAvailable ==> s.threadOk)
    && (s.worker == Asleep(false) ==> !s.frameAvailable && s.phase == RUNNING)
    && (s.resources <==> s.worker.Asleep?)
    && (s.phase == STOPPING ==> s.stopCalled)
  }

  lemma FreeKeeps(s: State, e: Event)
    requires FreeInv(s)
    ensures FreeInv(Free(s, e))
  {
  }

  lemma {:induction false} FreeRunInv(es: seq<Event>)
    ensures FreeInv(FreeFrom(Fresh, es))
  {
    if es == [] {
    } else {
      FreeRunInv(es[..|es| - 1]);
      FreeKeeps(FreeFrom(Fresh, es[..|es| - 1]), es[|es| - 1]);
    }
  }

  /**
    After any run with stops at any time, the steps that move the phase backwards: a stop when
    the thread is gone and the phase STOPPED, and the two that overwrite a stop that came too
    early, `start` itself and the end of a successful setup.
  */
  lemma PhaseGoesBackExactlyWhen(es: seq<Event>, e: Event)
    ensures
      var s := FreeFrom(Fresh, es);
      Rank(Free(s, e).phase) < Rank(s.phase)
      <==> || (e.Stop? && s.phase == STOPPED)
           || (e.Start? && s.worker.Unborn? && s.phase == STOPPING)
           || (e == Setup(true) && s.worker.Ready? && s.phase == STOPPING)
  {
    FreeRunInv(es);
  }

  /** Even then the thread does not sleep unsignalled with a frame pending or a stop to see. */
  lemma FreeNoLostWakeUp(es: seq<Event>)
    ensures
      var s := FreeFrom(Fresh, es);
      s.worker == Asleep(false) ==> !s.frameAvailable && s.phase == RUNNING
  {
    FreeRunInv(es);
  }

  /** The destructor asserts that the phase is UNINITIALIZED or STOPPED. */
  predicate MayDestroy(s: State) { s.phase == UNINITIALIZED || s.phase == STOPPED }

  /** The thread's next step: its setup, or its next turn. */
  function ThreadStep(s: State, setupOk: bool, frame: int): State {
    match s.worker
    case Ready => DoSetup(s, setupOk)
    case Asleep(_) => DoWorkerWakes(s, frame)
    case _ => s
  }

  /** A stop is honoured by the thread's next step exactly when it is in its loop, or its setup is about to fail. */
  lemma StopHonouredExactlyWhen(s: State, setupOk: bool, frame: int)
    ensures MayDestroy(ThreadStep(DoStop(s), setupOk, frame)) <==> s.worker.Asleep? || (s.worker.Ready? && !setupOk)
  {
  }

  /** A stop that finds no thread is never answered, whatever comes: the object stays indestructible. */
  lemma {:induction false} StopWithoutThread(s: State, es: seq<Event>)
    requires s.worker.Gone? || s.worker.Unborn?
    requires s.starter.Before? ==> s.worker.Unborn? && forall e :: e in es ==> !e.Start?
    ensures FreeFrom(DoStop(s), es).phase == STOPPING && FreeFrom(DoStop(s), es).worker == s.worker
    ensures FreeFrom(DoStop(s), es).starter.Before? <==> s.starter.Before?
  {
    if es == [] {
    } else {
      assert es == es[..|es| - 1] + [es[|es| - 1]];
      StopWithoutThread(s, es[..|es| - 1]);
    }
  }

  /** A running thread runs on until a stop that comes later. */
  lemma {:induction false} RunsUntilStop(s: State, es: seq<Event>)
    requires s.phase == RUNNING && s.worker.Asleep? && !s.starter.Before? && forall e :: e in es ==> !e.Stop?
    ensures
      var t := FreeFrom(s, es);
      t.phase == RUNNING && t.worker.Asleep? && !t.starter.Before? && t.stopCalled == s.stopCalled
  {
    if es == [] {
    } else {
      assert es == es[..|es| - 1] + [es[|es| - 1]];
      RunsUntilStop(s, es[..|es| - 1]);
    }
  }

  /** So a stop that comes while the thread is still setting up, with success, is lost for good. */
  lemma StopDuringSetupIsLost(s: State, es: seq<Event>)
    requires s.worker.Ready? && !s.starter.Before? && forall e :: e in es ==> !e.Stop?
    ensures
      var t := FreeFrom(Free(DoStop(s), Setup(true)), es);
      t.stopCalled && t.phase == RUNNING && t.worker.Asleep? && !MayDestroy(t)
  {
    RunsUntilStop(Free(DoStop(s), Setup(true)), es);
  }

  lemma FreeStep(s: State, es: seq<Event>, e: Event)
    ensures FreeFrom(s, es + [e]) == Free(FreeFrom(s, es), e)
  {
    assert (es + [e])[..|es|] == es;
  }

  lemma FreeFour(a: Event, b: Event, c: Event, d: Event)
    ensures FreeFrom(Fresh, [a, b]) == Free(Free(Fresh, a), b)
    ensures FreeFrom(Fresh, [a, b, c, d]) == Free(Free(Free(Free(Fresh, a), b), c), d)
  {
    FreeStep(Fresh, [], a);
    FreeStep(Fresh, [a], b);
    FreeStep(Fresh, [a, b], c);
    FreeStep(Fresh, [a, b, c], d);
    assert [] + [a] == [a] && [a] + [b] == [a, b] && [a, b] + [c] == [a, b, c] && [a, b, c] + [d] == [a, b, c, d];
  }

  /**
    A stop while `start` waits: the thread comes up all the same and sleeps.  `start` reports
    success, or, if it woke up by itself in between, a failure of a thread that then runs.
  */
  lemma StopDuringStart()
    ensures
      var early := FreeFrom(Fresh, [Start, Stop]);
      var late := FreeFrom(Fresh, [Start, Stop, Setup(true), StarterWakes]);
      && early.phase == STOPPING && late.phase == RUNNING
      && late.stopCalled && late.worker == Asleep(false) && late.starter == Returned(true) && !MayDestroy(late)
    ensures
      var late := FreeFrom(Fresh, [Start, Stop, StarterWakes, Setup(true)]);
      late.phase == RUNNING && late.worker == Asleep(false) && late.starter == Returned(false)
  {
    FreeFour(Start, Stop, StarterWakes, Setup(true));
    FreeFour(Start, Stop, Setup(true), StarterWakes);
  }

  /** A stop after the thread gave up: the phase goes back, and nobody is left to bring it to the end again. */
  lemma StopAfterTheEnd(es: seq<Event>)
    ensures
      var s := FreeFrom(Fresh, [Start, Setup(false)]);
      s.phase == STOPPED && FreeFrom(DoStop(s), es).phase == STOPPING
  {
    FreeFour(Start, Setup(false), Stop, Stop);
    StopWithoutThread(FreeFrom(Fresh, [Start, Setup(false)]), es);
  }

  /** And a stop where there was no start, which the header allows. */
  lemma StopWithoutStart(es: seq<Event>)
    requires forall e :: e in es ==> !e.Start?
    ensures FreeFrom(DoStop(Fresh), es).phase == STOPPING
  {
    StopWithoutThread(Fresh, es);
  }

  // ------------------------------------------------------------- dropped frames

  function Count(frames: seq<int>): Frames {
    if frames == [] then Frames(-1, 0, []) else Process(Count(frames[..|frames| - 1]), frames[|frames| - 1])
  }

  ghost predicate Increasing(frames: seq<int>) {
    forall i, j :: 0 <= i < j < |frames| ==> frames[i] < frames[j]
  }

  lemma CountAppend(frames: seq<int>, frame: int)
    ensures Count(frames + [frame]) == Process(Count(frames), frame)
  {
    assert (frames + [frame])[..|frames|] == frames;
  }

  lemma NextFrames(s: State, e: Event)
    ensures Next(s, e).frames == s.frames || (e.WorkerWakes? && Next(s, e).frames == Process(s.frames, e.frame))
  {
  }

  lemma ProcessCounts(f: Frames, frame: int)
    requires f == Count(f.processed)
    ensures Process(f, frame) == Count(Process(f, frame).processed)
  {
    CountAppend(f.processed, frame);
  }

  /** The accounting of a run depends only on the frames processed. */
  lemma {:induction false} RunCounts(es: seq<Event>)
    ensures Run(es).frames == Count(Run(es).frames.processed)
  {
    hide Next, Process, Count;
    if es != [] {
      var s, e := Run(es[..|es| - 1]), es[|es| - 1];
      RunCounts(es[..|es| - 1]);
      NextFrames(s, e);
      if e.WorkerWakes? { ProcessCounts(s.frames, e.frame); }
    } else {
      CountNone();
    }
  }

  lemma CountNone()
    ensures Count([]) == Frames(-1, 0, [])
  {
  }

  lemma {:induction false} CountFacts(frames: seq<int>)
    requires frames != [] && Increasing(frames) && frames[0] >= 0
    ensures
      var c := Count(frames);
      && c.last == frames[|frames| - 1]
      && c.dropped + |frames| == c.last - frames[0] + 1
           - if frames[0] == 0 && |frames| > 1 then frames[1] - 1 else 0
  {
    if |frames| == 1 {
      assert Count(frames[..0]) == Frames(-1, 0, []);
    } else {
      var front := frames[..|frames| - 1];
      CountFacts(front);
      assert front[0] == frames[0] && front[|front| - 1] == frames[|front| - 1] < frames[|front|];
      if |frames| > 2 { assert front[1] == frames[1] && frames[0] < frames[1] <= frames[|front| - 1]; }
    }
  }

  /**
    Dropped plus processed is last minus first plus one: for every increasing sequence of frame
    numbers that starts above zero, and, when it starts at zero, exactly if the second is one.
  */
  lemma DroppedPlusProcessed(frames: seq<int>)
    requires frames != [] && Increasing(frames) && frames[0] >= 0
    ensures Count(frames).dropped + |frames| == frames[|frames| - 1] - frames[0] + 1
       <==> frames[0] > 0 || |frames| == 1 || frames[1] == 1
  {
    CountFacts(frames);
  }

  /** Frames 0 and 5: four were dropped and none is counted. */
  lemma GapAfterFrameZero()
    ensures Count([0, 5]).dropped == 0 && Count([0, 5]).last == 5
  {
    CountNone();
    CountAppend([], 0);
    CountAppend([0], 5);
    assert [] + [0] == [0] && [0] + [5] == [0, 5];
  }

  /** The same over any interleaving, of the counter that the run leaves behind. */
  lemma {:induction false} DroppedAfterAnyRun(es: seq<Event>)
    requires
      var seen := Run(es).frames.processed;
      seen != [] && Increasing(seen) && seen[0] >= 0
    ensures
      var f := Run(es).frames;
      && f.last == f.processed[|f.processed| - 1]
      && (f.dropped + |f.processed| == f.last - f.processed[0] + 1
          <==> f.processed[0] > 0 || |f.processed| == 1 || f.processed[1] == 1)
  {
    var seen := Run(es).frames.processed;
    RunCounts(es);
    CountFacts(seen);
    DroppedPlusProcessed(seen);
  }

  // ------------------------------------------------------------------ the object

  /** A step kept whichever invariant held: with one stop after `start`, or with stops at any time. */
  ghost predicate Sound(s: State, t: State) { (Inv(s) ==> Inv(t)) && (FreeInv(s) ==> FreeInv(t)) }

  lemma StepSound(s: State, e: Event)
    ensures !e.Stop? ==> Sound(s, Next(s, e))
  {
    if Inv(s) { NextKeeps(s, e); }
    if FreeInv(s) { FreeKeeps(s, e); }
  }

  class Overlay {
    var phase: Phase
    var frameAvailable: bool
    var threadOk: bool
    var resources: bool
    var lastFrameNumber: int
    var totalDroppedFrames: int
    var processed: seq<int>
    var starter: Starter
    var worker: Worker
    var stopCalled: bool

    function View(): State
      reads this
    {
      State(phase, frameAvailable, threadOk, resources, Frames(lastFrameNumber, totalDroppedFrames, processed),
            starter, worker, stopCalled)
    }

    constructor ()
      ensures View() == Fresh && Inv(View()) && FreeInv(View())
    {
      phase, frameAvailable, threadOk, resources := UNINITIALIZED, false, false, false;
      lastFrameNumber, totalDroppedFrames, processed := -1, 0, [];
      starter, worker, stopCalled := Before, Unborn, false;
    }

    method ProcessFrame(frame: int)
      modifies `lastFrameNumber, `totalDroppedFrames, `processed
      ensures View() == old(View()).(frames := Process(old(View()).frames, frame))
    {
      if lastFrameNumber > 0 {
        totalDroppedFrames := totalDroppedFrames + (frame - lastFrameNumber) - 1;
      }
      lastFrameNumber := frame;
      processed := processed + [frame];
    }

    method StartThread()
      requires starter.Before?
      modifies this
      ensures View() == Next(old(View()), Start)
      ensures Sound(old(View()), View())
    {
      StepSound(View(), Start);
      worker := Ready;
      phase := INIT;
      starter := Waiting(false);
    }

    method AwaitStart()
      requires starter.Waiting?
      modifies this
      ensures View() == Next(old(View()), StarterWakes)
      ensures Sound(old(View()), View())
      ensures Inv(old(View())) && starter == Returned(true) ==> phase == RUNNING
    {
      StepSound(View(), StarterWakes);
      starter := if phase == INIT then Waiting(false) else Returned(threadOk);
    }

    method SetUp(ok: bool)
      requires worker.Ready?
      modifies this
      ensures View() == Next(old(View()), Setup(ok))
      ensures Sound(old(View()), View())
    {
      StepSound(View(), Setup(ok));
      threadOk := ok;
      if ok {
        resources, phase, worker := true, RUNNING, Asleep(false);
      } else {
        phase, resources, worker := STOPPED, false, Gone;
      }
      starter := WakeStarter(starter);
    }

    method OnFrameAvailable()
      requires threadOk
      modifies this
      ensures View() == Next(old(View()), FrameArrives)
      ensures Sound(old(View()), View())
    {
      StepSound(View(), FrameArrives);
      frameAvailable := true;
      worker := WakeWorker(worker);
    }

    method LoopTurn(frame: int)
      requires worker.Asleep?
      modifies this
      ensures View() == Next(old(View()), WorkerWakes(frame))
      ensures Sound(old(View()), View())
    {
      StepSound(View(), WorkerWakes(frame));
      if frameAvailable {
        ProcessFrame(frame);
        frameAvailable := false;
      }
      if phase == RUNNING {
        worker := Asleep(false);
      } else {
        resources, phase, worker := false, STOPPED, Gone;
      }
    }

    method StopThread()
      modifies this
      ensures View() == Free(old(View()), Stop)
      ensures FreeInv(old(View())) ==> FreeInv(View())
      ensures Inv(old(View())) && old(starter == Returned(true) && !stopCalled) ==> Inv(View())
    {
      if FreeInv(View()) { FreeKeeps(View(), Stop); }
      if Inv(View()) { NextKeeps(View(), Stop); }
      phase := STOPPING;
      worker := WakeWorker(worker);
      stopCalled := true;
    }
  }
}
