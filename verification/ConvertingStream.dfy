/**
  `MyConvertingStreamSource` of cmds/stagefright/stream.cpp: a writer thread packs an
  unbounded byte stream into fixed-size buffers that a listener hands over through
  `onBufferAvailable` and receives, filled, through `queueBuffer`.

  `Stream` interleaves the two threads: the lock is held for one turn of the loop of
  `writeData` at a time, and for the whole of `onBufferAvailable`.  `held` is what the
  listener has: for each buffer the payload it was told about, or None for a buffer it
  never received.  The writer never calls `writeData` again once it reports EOS.
*/
module ConvertingStreamModel {
  import opened Basics

  datatype Filled = Filled(index: nat, bytes: seq<byte>)

  datatype Stream = Stream(
    mem: seq<seq<byte>>,                    // contents of each shared buffer
    queue: seq<nat>,                        // mBufferQueue
    current: Option<nat>,                   // mCurrentBufferIndex, None for -1
    offset: nat,                            // mCurrentBufferOffset
    held: map<nat, Option<seq<byte>>>,      // buffers the listener has
    handed: seq<Filled>,                    // queueBuffer calls, in order
    eosSent: nat,                           // EOS commands issued
    todo: seq<byte>,                        // rest of the writeData call in progress
    accepted: seq<byte>,                    // every byte passed to writeData
    ended: bool)                            // mWriter->reachedEOS()

  datatype Event =
    | BeginWrite(data: seq<byte>)
    | WriterTurn
    | WriterEnds
    | BufferAvailable(index: nat)

  // --------------------------------------------------------------------- steps

  /** memcpy of `bytes` to `m + off`. */
  function Overwrite(m: seq<byte>, off: nat, bytes: seq<byte>): (r: seq<byte>)
    requires off + |bytes| <= |m|
    ensures |r| == |m| && r[..off + |bytes|] == m[..off] + bytes
  {
    m[..off] + bytes + m[off + |bytes|..]
  }

  /** `queueBuffer(current, offset)`: the listener gets the filled part of the current buffer. */
  function HandOver(s: Stream): Stream
    requires s.current.Some? && s.current.value < |s.mem| && s.offset <= |s.mem[s.current.value]|
  {
    var i := s.current.value;
    var bytes := s.mem[i][..s.offset];
    s.(current := None, held := s.held[i := Some(bytes)], handed := s.handed + [Filled(i, bytes)])
  }

  predicate CanTurn(s: Stream) {
    s.todo != [] && (s.current.Some? || s.queue != [])
  }

  predicate InBounds(s: Stream) {
    && (forall k :: 0 <= k < |s.queue| ==> s.queue[k] < |s.mem|)
    && (s.current.Some? ==> s.current.value < |s.mem| && s.offset < |s.mem[s.current.value]|)
  }

  function Pick(s: Stream): Stream
    requires CanTurn(s)
  {
    if s.current.Some? then s else s.(current := Some(s.queue[0]), offset := 0, queue := s.queue[1..])
  }

  function CopySize(todo: nat, offset: nat, size: nat): nat
    requires offset <= size
  {
    if todo + offset > size then size - offset else todo
  }

  /** Copy as much as fits into the current buffer. */
  function Fill(s: Stream): Stream
    requires s.current.Some? && s.current.value < |s.mem| && s.offset <= |s.mem[s.current.value]|
  {
    var i := s.current.value;
    var n := CopySize(|s.todo|, s.offset, |s.mem[i]|);
    s.(mem := s.mem[i := Overwrite(s.mem[i], s.offset, s.todo[..n])], offset := s.offset + n, todo := s.todo[n..])
  }

  /** One turn of the loop of `writeData`. */
  function Turn(s: Stream): Stream
    requires InBounds(s) && CanTurn(s)
  {
    var s1 := Fill(Pick(s));
    if s1.offset == |s1.mem[s1.current.value]| then HandOver(s1) else s1
  }

  /** `onBufferAvailable`. */
  function GiveBack(s: Stream, index: nat): Stream
    requires InBounds(s)
  {
    var s1 := s.(queue := s.queue + [index], held := s.held - {index});
    if !s.ended then s1
    else
      var s2 := if s1.current.Some? then HandOver(s1) else s1;
      s2.(eosSent := s2.eosSent + 1)
  }

  /** One atomic step; an event that is not enabled changes nothing. */
  function Next(s: Stream, e: Event): Stream
    requires InBounds(s)
  {
    match e
    case BeginWrite(data) => if s.ended || s.todo != [] then s else s.(todo := data, accepted := s.accepted + data)
    case WriterTurn => if CanTurn(s) then Turn(s) else s
    case WriterEnds => if s.todo == [] then s.(ended := true) else s
    case BufferAvailable(i) => if i in s.held then GiveBack(s, i) else s
  }

  /** At the start the listener has every buffer and has announced none. */
  function Initial(mem: seq<seq<byte>>): Stream {
    Stream(mem, [], None, 0, map i: nat | 0 <= i < |mem| && i in Range(|mem|) :: None, [], 0, [], [], false)
  }

  // ----------------------------------------------------------------- invariant

  ghost predicate Placed(queue: seq<nat>, current: Option<nat>, held: set<nat>, count: nat, i: nat) {
    Times(queue, i) + (if current == Some(i) then 1 else 0) + (if i in held then 1 else 0) == if i < count then 1 else 0
  }

  /** Every buffer is in exactly one place: queue, current, listener. */
  ghost predicate AllPlaced(s: Stream) {
    forall i: nat :: Placed(s.queue, s.current, s.held.Keys, |s.mem|, i)
  }

  function Payloads(hs: seq<Filled>): seq<byte> {
    if hs == [] then [] else Payloads(hs[..|hs| - 1]) + hs[|hs| - 1].bytes
  }

  function Partial(s: Stream): seq<byte>
    requires InBounds(s)
  {
    if s.current.None? then [] else s.mem[s.current.value][..s.offset]
  }

  ghost predicate Full(s: Stream, h: Filled) { h.index < |s.mem| && |h.bytes| == |s.mem[h.index]| }

  /** Only the last buffer handed over may be partly filled, and only after the end of the stream. */
  ghost predicate FullButLast(s: Stream) {
    forall k :: 0 <= k < |s.handed| ==> Full(s, s.handed[k]) || (k == |s.handed| - 1 && s.ended && s.current.None?)
  }

  /** What the listener was given is still in memory for as long as it keeps the buffer. */
  ghost predicate Readable(s: Stream) {
    forall i :: i in s.held ==> i < |s.mem| && (s.held[i].Some? ==> s.held[i].value <= s.mem[i])
  }

  ghost predicate Inv(s: Stream) {
    && InBounds(s)
    && (s.current.Some? ==> s.offset > 0)
    && AllPlaced(s)
    && Payloads(s.handed) + Partial(s) + s.todo == s.accepted
    && FullButLast(s)
    && Readable(s)
    && (s.ended ==> s.todo == [])
  }

  lemma {:induction false} PayloadsAppend(hs: seq<Filled>, h: Filled)
    ensures Payloads(hs + [h]) == Payloads(hs) + h.bytes
  {
    assert (hs + [h])[..|hs|] == hs;
  }

  /** Inside a turn the current buffer may be empty or full. */
  ghost predicate Mid(s: Stream) {
    && s.current.Some? && s.current.value < |s.mem| && s.offset <= |s.mem[s.current.value]|
    && (forall k :: 0 <= k < |s.queue| ==> s.queue[k] < |s.mem|)
    && AllPlaced(s)
    && Payloads(s.handed) + s.mem[s.current.value][..s.offset] + s.todo == s.accepted
    && (forall k :: 0 <= k < |s.handed| ==> Full(s, s.handed[k]))
    && Readable(s)
    && !s.ended
  }

  lemma PickMid(s: Stream)
    requires Inv(s) && CanTurn(s)
    ensures Mid(Pick(s))
  {
    if s.current.None? { PickPlaced(s); }
  }

  lemma PickPlaced(s: Stream)
    requires AllPlaced(s) && s.current.None? && s.queue != []
    ensures forall i: nat :: Placed(s.queue[1..], Some(s.queue[0]), s.held.Keys, |s.mem|, i)
  {
    assert s.queue[..0] + s.queue[1..] == s.queue[1..];
    forall i: nat ensures Placed(s.queue[1..], Some(s.queue[0]), s.held.Keys, |s.mem|, i) {
      assert Placed(s.queue, None, s.held.Keys, |s.mem|, i);
      TimesRemove(s.queue, 0, i);
    }
  }

  lemma FillMid(s: Stream)
    requires Mid(s)
    ensures Mid(Fill(s))
    ensures s.todo != [] && s.offset < |s.mem[s.current.value]| ==> Fill(s).offset > 0
    ensures Fill(s).todo == [] || Fill(s).offset == |s.mem[s.current.value]|
  {
    var i, t := s.current.value, Fill(s);
    var n := t.offset - s.offset;
    assert Placed(s.queue, s.current, s.held.Keys, |s.mem|, i);
    assert t.mem[i][..t.offset] == s.mem[i][..s.offset] + s.todo[..n];
    assert s.todo[..n] + s.todo[n..] == s.todo;
    assert Payloads(s.handed) + t.mem[i][..t.offset] + t.todo == s.accepted;
    forall j | j in s.held && s.held[j].Some? ensures s.held[j].value <= t.mem[j] { assert j != i; }
  }

  lemma HandOverKeeps(s: Stream)
    requires s.current.Some? && s.current.value < |s.mem| && s.offset <= |s.mem[s.current.value]|
    requires AllPlaced(s)
    ensures AllPlaced(HandOver(s)) && Payloads(HandOver(s).handed) == Payloads(s.handed) + s.mem[s.current.value][..s.offset]
    ensures Readable(s) ==> Readable(HandOver(s))
  {
    var i := s.current.value;
    PayloadsAppend(s.handed, Filled(i, s.mem[i][..s.offset]));
    forall j: nat ensures Placed(s.queue, None, HandOver(s).held.Keys, |s.mem|, j) {
      assert Placed(s.queue, s.current, s.held.Keys, |s.mem|, j);
    }
  }

  lemma FullTurnEnds(s: Stream)
    requires Mid(s) && s.offset == |s.mem[s.current.value]|
    ensures Inv(HandOver(s))
  {
    HandOverKeeps(s);
  }

  lemma PartialTurnEnds(s: Stream)
    requires Mid(s) && 0 < s.offset < |s.mem[s.current.value]|
    ensures Inv(s)
  {
  }

  lemma TurnKeeps(s: Stream)
    requires Inv(s) && CanTurn(s)
    ensures Inv(Turn(s))
  {
    PickMid(s);
    EndTurn(Pick(s));
  }

  lemma EndTurn(s: Stream)
    requires Mid(s) && s.todo != []
    ensures
      var t := Fill(s);
      t.current == s.current && Inv(if t.offset == |t.mem[t.current.value]| then HandOver(t) else t)
  {
    FillMid(s);
    var t := Fill(s);
    if t.offset == |t.mem[t.current.value]| { FullTurnEnds(t); } else { PartialTurnEnds(t); }
  }

  lemma GiveBackKeeps(s: Stream, index: nat)
    requires Inv(s) && index in s.held
    ensures Inv(GiveBack(s, index))
  {
    var s1 := s.(queue := s.queue + [index], held := s.held - {index});
    forall i: nat ensures Placed(s1.queue, s1.current, s1.held.Keys, |s.mem|, i) {
      assert Placed(s.queue, s.current, s.held.Keys, |s.mem|, i);
      TimesAppend(s.queue, index, i);
    }
    if s.ended && s.current.Some? {
      HandOverKeeps(s1);
    }
  }

  /** Every step of either thread keeps the invariant. */
  lemma NextKeeps(s: Stream, e: Event)
    requires Inv(s)
    ensures Inv(Next(s, e))
  {
    match e
    case BeginWrite(data) =>
    case WriterTurn => if CanTurn(s) { TurnKeeps(s); }
    case WriterEnds =>
    case BufferAvailable(i) => if i in s.held { GiveBackKeeps(s, i); }
  }

  lemma InitialInv(mem: seq<seq<byte>>)
    ensures Inv(Initial(mem))
  {
  }

  ghost predicate Reaches(s: Stream, es: seq<Event>, t: Stream)
    requires Inv(s)
    decreases |es|
  {
    if es == [] then s == t
    else
      NextKeeps(s, es[0]);
      Reaches(Next(s, es[0]), es[1..], t)
  }

  /**
    Main theorem, over every interleaving: each buffer in exactly one place; the bytes
    handed over, then the current partial buffer, then what `writeData` still has to
    place, are all bytes ever written, in order; every buffer handed over is full except
    a last one after the end; and the listener can still read what it was given.
  */
  lemma {:induction false} EveryInterleaving(s: Stream, es: seq<Event>, t: Stream)
    requires Inv(s) && Reaches(s, es, t)
    ensures Inv(t)
    decreases |es|
  {
    if es == [] {
    } else {
      NextKeeps(s, es[0]);
      EveryInterleaving(Next(s, es[0]), es[1..], t);
    }
  }

  ghost predicate FromStart(mem: seq<seq<byte>>, es: seq<Event>, t: Stream) {
    InitialInv(mem);
    Reaches(Initial(mem), es, t)
  }

  /** From the start, the listener has received a prefix of the stream, whatever the schedule. */
  lemma ListenerSeesPrefix(mem: seq<seq<byte>>, es: seq<Event>, t: Stream)
    requires FromStart(mem, es, t)
    ensures Payloads(t.handed) <= t.accepted
    ensures t.ended && t.current.None? ==> Payloads(t.handed) == t.accepted
    ensures forall k :: 0 <= k < |t.handed| - 1 ==> Full(t, t.handed[k])
    ensures AllPlaced(t)
  {
    InitialInv(mem);
    EveryInterleaving(Initial(mem), es, t);
  }

  // ----------------------------------------------------------------- the flush

  /** After the end, a buffer that comes back takes the partial buffer out with it: everything written is delivered. */
  lemma FlushDelivers(s: Stream, index: nat)
    requires Inv(s) && s.ended && index in s.held
    ensures
      var t := Next(s, BufferAvailable(index));
      t.eosSent == s.eosSent + 1 && t.current.None? && Payloads(t.handed) == t.accepted == s.accepted
  {
    NextKeeps(s, BufferAvailable(index));
    assert Next(s, BufferAvailable(index)) == GiveBack(s, index);
  }

  /** After the end, with no buffer left at the listener, nothing happens any more. */
  lemma {:induction false} NothingWithoutBuffers(s: Stream, es: seq<Event>, t: Stream)
    requires Inv(s) && s.ended && s.held == map[] && Reaches(s, es, t)
    ensures t == s
    decreases |es|
  {
    if es == [] {
    } else {
      NextKeeps(s, es[0]);
      assert Next(s, es[0]) == s;
      NothingWithoutBuffers(s, es[1..], t);
    }
  }

  ghost predicate EndCanArrive(s: Stream)
    requires Inv(s)
  {
    exists es, t :: Reaches(s, es, t) && t.eosSent > s.eosSent
  }

  /** After the end, the end of the stream can still reach the listener exactly when it holds a buffer. */
  lemma FlushExactlyWhen(s: Stream)
    requires Inv(s) && s.ended
    ensures EndCanArrive(s) <==> s.held != map[]
  {
    if s.held == map[] {
      forall es, t | Reaches(s, es, t) ensures t.eosSent == s.eosSent { NothingWithoutBuffers(s, es, t); }
    } else {
      var index :| index in s.held;
      FlushDelivers(s, index);
      var es := [BufferAvailable(index)];
      var t := Next(s, es[0]);
      NextKeeps(s, es[0]);
      assert Reaches(t, es[1..], t);
      assert Reaches(s, es, t) && t.eosSent > s.eosSent;
    }
  }

  /** One buffer of two bytes, one byte written into it, and the end: that byte is never handed over. */
  lemma LastByteKept()
    ensures
      var es := [BufferAvailable(0), BeginWrite([7]), WriterTurn, WriterEnds];
      exists t :: FromStart([[0, 0]], es, t) && t.ended && t.held == map[] && t.handed == [] && t.accepted == [7]
  {
    hide AllPlaced, FullButLast, Readable, Payloads;
    var s0 := Initial([[0, 0]]);
    InitialInv([[0, 0]]);
    var s1 := Next(s0, BufferAvailable(0));
    NextKeeps(s0, BufferAvailable(0));
    var s2 := Next(s1, BeginWrite([7]));
    NextKeeps(s1, BeginWrite([7]));
    var s3 := Next(s2, WriterTurn);
    NextKeeps(s2, WriterTurn);
    var s4 := Next(s3, WriterEnds);
    NextKeeps(s3, WriterEnds);
    var es := [BufferAvailable(0), BeginWrite([7]), WriterTurn, WriterEnds];
    assert es[1..][1..] == es[2..] && es[2..][1..] == es[3..] && es[3..][1..] == [];
    assert Reaches(s4, [], s4);
    assert Reaches(s3, es[3..], s4);
    assert Reaches(s2, es[2..], s4);
    assert Reaches(s1, es[1..], s4);
    assert FromStart([[0, 0]], es, s4);
  }

  /** A turn always places at least one byte, unless it picked an empty buffer. */
  lemma TurnProgress(s: Stream)
    requires Inv(s) && CanTurn(s) && forall i :: 0 <= i < |s.mem| ==> |s.mem[i]| > 0
    ensures |Turn(s).todo| < |s.todo| && Turn(s).todo == s.todo[|s.todo| - |Turn(s).todo|..]
    ensures |Turn(s).mem| == |s.mem| && forall i :: 0 <= i < |s.mem| ==> |Turn(s).mem[i]| == |s.mem[i]|
    ensures Turn(s).ended == s.ended && Turn(s).accepted == s.accepted
  {
  }

  lemma Taken(placed: seq<byte>, before: seq<byte>, data: seq<byte>, total: nat)
    requires total <= |data| && placed + data[total..] == before + data
    ensures placed == before + data[..total]
  {
    var tail := data[total..];
    assert before + data == (before + data[..total]) + tail;
    assert placed == (placed + tail)[..|placed|];
  }

  // --------------------------------------------------------------------- class

  class ConvertingStreamSource {
    var mem: seq<seq<byte>>
    var queue: seq<nat>
    var current: Option<nat>
    var offset: nat
    var held: map<nat, Option<seq<byte>>>
    var handed: seq<Filled>
    var eosSent: nat
    var todo: seq<byte>
    var accepted: seq<byte>
    var ended: bool

    function View(): Stream
      reads this
    {
      Stream(mem, queue, current, offset, held, handed, eosSent, todo, accepted, ended)
    }

    constructor (mem: seq<seq<byte>>)
      ensures View() == Initial(mem) && Inv(View())
    {
      this.mem, queue, current, offset := mem, [], None, 0;
      held := Initial(mem).held;
      handed, eosSent, todo, accepted, ended := [], 0, [], [], false;
      InitialInv(mem);
    }

    method QueueCurrent()
      requires current.Some? && current.value < |mem| && offset <= |mem[current.value]|
      modifies `current, `held, `handed
      ensures View() == HandOver(old(View()))
    {
      var i := current.value;
      var bytes := mem[i][..offset];
      held, handed := held[i := Some(bytes)], handed + [Filled(i, bytes)];
      current := None;
    }

    method OnBufferAvailable(index: nat)
      requires Inv(View()) && index in held
      modifies this
      ensures View() == GiveBack(old(View()), index) && Inv(View())
    {
      GiveBackKeeps(View(), index);
      queue := queue + [index];
      held := held - {index};
      if ended {
        if current.Some? {
          QueueCurrent();
        }
        eosSent := eosSent + 1;
      }
    }

    method PickBuffer()
      requires CanTurn(View())
      modifies `current, `offset, `queue
      ensures View() == Pick(old(View()))
    {
      if current.None? {
        current := Some(queue[0]);
        offset := 0;
        queue := queue[1..];
      }
    }

    method FillCurrent()
      requires current.Some? && current.value < |mem| && offset <= |mem[current.value]|
      modifies `mem, `offset, `todo
      ensures View() == Fill(old(View()))
    {
      var i := current.value;
      var copy := |todo|;
      if copy + offset > |mem[i]| {
        copy := |mem[i]| - offset;
      }
      mem := mem[i := Overwrite(mem[i], offset, todo[..copy])];
      offset := offset + copy;
      todo := todo[copy..];
    }

    method WriteTurn()
      requires InBounds(View()) && CanTurn(View())
      modifies this
      ensures View() == Turn(old(View()))
    {
      PickBuffer();
      FillCurrent();
      if offset == |mem[current.value]| {
        QueueCurrent();
      }
    }

    /**
      A call of `writeData` during which the listener gives back `arrivals`, one each time
      the writer has to wait.  It returns the full size, or is still waiting when the
      arrivals run out; either way the bytes taken so far are a prefix of the data.
    */
    method WriteData(data: seq<byte>, arrivals: seq<nat>) returns (total: nat)
      requires Inv(View()) && todo == [] && !ended
      requires forall i :: 0 <= i < |mem| ==> |mem[i]| > 0
      modifies this
      ensures Inv(View()) && !ended && accepted == old(accepted) + data
      ensures total <= |data| && todo == data[total..]
      ensures total == |data| || (current.None? && queue == [])
      ensures Payloads(handed) + Partial(View()) == old(accepted) + data[..total]
    {
      hide AllPlaced, FullButLast, Readable, Payloads, Turn;
      NextKeeps(View(), BeginWrite(data));
      todo, accepted := data, accepted + data;
      total := 0;
      var next := 0;
      while todo != []
        invariant Inv(View()) && !ended && accepted == old(accepted) + data
        invariant total <= |data| && todo == data[total..]
        invariant forall i :: 0 <= i < |mem| ==> |mem[i]| > 0
        invariant 0 <= next <= |arrivals|
        decreases |todo|, |arrivals| - next
      {
        if current.None? && queue == [] {
          if next == |arrivals| || arrivals[next] !in held {
            break;
          }
          OnBufferAvailable(arrivals[next]);
          next := next + 1;
        } else {
          ghost var s := View();
          TurnProgress(s);
          TurnKeeps(s);
          WriteTurn();
          total := |data| - |todo|;
        }
      }
      Taken(Payloads(handed) + Partial(View()), old(accepted), data, total);
    }
  }
}
