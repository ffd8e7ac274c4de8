/** The length-prefixed frames of lib/sidecar.ts:1-76 and the client's incremental reader. */
module Framing {
  import opened Wrappers
  import opened StructuredValues
  import opened Bytes

  datatype Frame = Frame(header: seq<byte>, blob: seq<byte>)

  predicate Framable(frame: Frame) {
    |frame.header| < U32_LIMIT && |frame.blob| < U32_LIMIT
  }

  function FrameBytes(frame: Frame): (bytes: seq<byte>)
    ensures |bytes| == 8 + |frame.header| + |frame.blob|
  {
    U32(|frame.header|) + U32(|frame.blob|) + frame.header + frame.blob
  }

  function FramesBytes(frames: seq<Frame>): seq<byte> {
    if frames == [] then [] else FrameBytes(frames[0]) + FramesBytes(frames[1..])
  }

  /** `encodeFrame`: fills a buffer in place; `None` when a length field would not hold its length. */
  method EncodeFrame(header: seq<byte>, blob: seq<byte>) returns (bytes: Option<seq<byte>>)
    ensures bytes == if Framable(Frame(header, blob)) then Some(FrameBytes(Frame(header, blob))) else None
  {
    if |header| >= U32_LIMIT || |blob| >= U32_LIMIT {
      return None;
    }
    var frame := new byte[8 + |header| + |blob|];
    assert frame[..0] == [] && [] + U32(|header|) == U32(|header|);
    Put(frame, 0, U32(|header|));
    Put(frame, 4, U32(|blob|));
    Put(frame, 8, header);
    Put(frame, 8 + |header|, blob);
    bytes := Some(frame[..8 + |header| + |blob|]);
  }

  /** Copy into a buffer at an offset. */
  method Put(buffer: array<byte>, offset: nat, value: seq<byte>)
    requires offset + |value| <= buffer.Length
    modifies buffer
    ensures buffer[..offset + |value|] == old(buffer[..offset]) + value
  {
    forall i | 0 <= i < |value| {
      buffer[offset + i] := value[i];
    }
  }

  // ------------------------------------------------------------------ what a byte stream holds

  /** The first frame and what follows it, when `bytes` starts with a complete frame. */
  function FirstFrame(bytes: seq<byte>): (first: Option<(Frame, seq<byte>)>)
    ensures first.Some? ==> |first.value.1| < |bytes|
  {
    if |bytes| < 8 then None
    else
      var headerLength, blobLength := FromLE(bytes[..4]), FromLE(bytes[4..8]);
      if |bytes| < 8 + headerLength + blobLength then None
      else
        Some((Frame(bytes[8..8 + headerLength], bytes[8 + headerLength..8 + headerLength + blobLength]),
              bytes[8 + headerLength + blobLength..]))
  }

  /** The complete frames at the front of a stream, in order. */
  function Frames(bytes: seq<byte>): seq<Frame>
    decreases |bytes|
  {
    match FirstFrame(bytes)
    case None => []
    case Some((frame, rest)) => [frame] + Frames(rest)
  }

  /** What is left of a stream after its first `n` frames. */
  function After(bytes: seq<byte>, n: nat): seq<byte>
    requires n <= |Frames(bytes)|
  {
    if n == 0 then bytes else After(FirstFrame(bytes).value.1, n - 1)
  }

  lemma FirstFrameOfBytes(frame: Frame, rest: seq<byte>)
    requires Framable(frame)
    ensures FirstFrame(FrameBytes(frame) + rest) == Some((frame, rest))
  {
    var bytes := FrameBytes(frame) + rest;
    FixedWidthLE(|frame.header|, []);
    FixedWidthLE(|frame.blob|, []);
    assert bytes[..4] == U32(|frame.header|) && bytes[4..8] == U32(|frame.blob|);
    assert bytes[8..] == frame.header + frame.blob + rest;
    assert bytes[8..8 + |frame.header|] == frame.header;
    assert bytes[8 + |frame.header|..8 + |frame.header| + |frame.blob|] == frame.blob;
  }

  lemma FirstFrameIsWritten(bytes: seq<byte>)
    ensures FirstFrame(bytes).Some? ==>
      Framable(FirstFrame(bytes).value.0) && bytes == FrameBytes(FirstFrame(bytes).value.0) + FirstFrame(bytes).value.1
  {
    if FirstFrame(bytes).Some? {
      FixedWidthLE(0, bytes[..4]);
      FixedWidthLE(0, bytes[4..8]);
      var h, b := FromLE(bytes[..4]), FromLE(bytes[4..8]);
      assert bytes == bytes[..4] + bytes[4..8] + bytes[8..8 + h] + bytes[8 + h..8 + h + b] + bytes[8 + h + b..];
    }
  }

  /** Sending frames and splitting the stream again gives the frames back, whatever incomplete frame
      follows, and only the bytes of frames split into them. */
  lemma {:induction false} FramesRoundTrip(frames: seq<Frame>, rest: seq<byte>)
    requires FirstFrame(rest).None?
    requires forall i :: 0 <= i < |frames| ==> Framable(frames[i])
    ensures Frames(FramesBytes(frames) + rest) == frames
    decreases |frames|
  {
    hide FirstFrame;
    if frames == [] {
      assert FramesBytes(frames) + rest == rest;
    } else {
      var tail := FramesBytes(frames[1..]) + rest;
      assert FramesBytes(frames) + rest == FrameBytes(frames[0]) + tail;
      FirstFrameOfBytes(frames[0], tail);
      FramesRoundTrip(frames[1..], rest);
    }
  }

  lemma {:induction false} StreamIsItsFrames(bytes: seq<byte>, n: nat)
    requires n <= |Frames(bytes)|
    ensures bytes == FramesBytes(Frames(bytes)[..n]) + After(bytes, n)
    decreases n
  {
    hide FirstFrame;
    if n == 0 {
      assert Frames(bytes)[..0] == [];
    } else {
      FirstFrameIsWritten(bytes);
      var frame, rest := FirstFrame(bytes).value.0, FirstFrame(bytes).value.1;
      StreamIsItsFrames(rest, n - 1);
      assert Frames(bytes)[..n] == [frame] + Frames(rest)[..n - 1];
      assert ([frame] + Frames(rest)[..n - 1])[1..] == Frames(rest)[..n - 1];
    }
  }

  /** More bytes never change a frame that was complete. */
  lemma {:induction false} FramesExtend(bytes: seq<byte>, more: seq<byte>)
    ensures |Frames(bytes)| <= |Frames(bytes + more)| && Frames(bytes + more)[..|Frames(bytes)|] == Frames(bytes)
    decreases |bytes|
  {
    hide FirstFrame;
    FirstFrameIsWritten(bytes);
    match FirstFrame(bytes)
    case None =>
    case Some((frame, rest)) =>
      FramesExtend(rest, more);
      assert bytes + more == FrameBytes(frame) + (rest + more);
      FirstFrameOfBytes(frame, rest + more);
  }

  lemma {:induction false} AfterExtends(bytes: seq<byte>, more: seq<byte>, n: nat)
    requires n <= |Frames(bytes)|
    ensures n <= |Frames(bytes + more)| && After(bytes + more, n) == After(bytes, n) + more
    decreases n
  {
    hide FirstFrame;
    FramesExtend(bytes, more);
    if n > 0 {
      FirstFrameIsWritten(bytes);
      var frame, rest := FirstFrame(bytes).value.0, FirstFrame(bytes).value.1;
      AfterExtends(rest, more, n - 1);
      assert bytes + more == FrameBytes(frame) + (rest + more);
      FirstFrameOfBytes(frame, rest + more);
    }
  }

  /** The `n`-th frame is the first one of what is left after `n`. */
  lemma {:induction false} NextFrame(bytes: seq<byte>, n: nat)
    requires n <= |Frames(bytes)|
    ensures FirstFrame(After(bytes, n)).Some? <==> n < |Frames(bytes)|
    ensures n < |Frames(bytes)| ==>
      FirstFrame(After(bytes, n)) == Some((Frames(bytes)[n], After(bytes, n + 1)))
    decreases n
  {
    hide FirstFrame;
    if n == 0 {
      if FirstFrame(bytes).Some? {
        assert After(bytes, 1) == After(FirstFrame(bytes).value.1, 0);
      }
    } else {
      NextFrame(FirstFrame(bytes).value.1, n - 1);
    }
  }

  // ------------------------------------------------------------------ the client's reader

  /** What the loop did for a call: gave it a frame, rejected it, or took a frame for it whose header
      `JSON.parse` then threw on. */
  datatype Settled = Resolved(frame: Frame) | Lost(frame: Frame) | Rejected

  /** What a call gets for a frame. */
  function Given(parses: seq<byte> -> bool, frame: Frame): Settled {
    if parses(frame.header) then Resolved(frame) else Lost(frame)
  }

  /** The frames taken, in the order of the calls they were taken for. */
  function Delivered(outcomes: seq<Option<Settled>>): seq<Frame> {
    if outcomes == [] then []
    else
      var last := outcomes[|outcomes| - 1];
      Delivered(outcomes[..|outcomes| - 1]) + if last.Some? && !last.value.Rejected? then [last.value.frame] else []
  }

  lemma {:induction false} NothingMoreDelivered(outcomes: seq<Option<Settled>>, done: nat)
    requires done <= |outcomes| && forall i :: done <= i < |outcomes| ==> outcomes[i].None?
    ensures Delivered(outcomes) == Delivered(outcomes[..done])
    decreases |outcomes|
  {
    if done == |outcomes| {
      assert outcomes[..done] == outcomes;
    } else {
      var shorter := outcomes[..|outcomes| - 1];
      NothingMoreDelivered(shorter, done);
      assert shorter[..done] == outcomes[..done];
    }
  }

  /** Settling the oldest call that waits. */
  lemma DeliveredNext(outcomes: seq<Option<Settled>>, done: nat, settled: Settled)
    requires done < |outcomes| && forall i :: done <= i < |outcomes| ==> outcomes[i].None?
    ensures Delivered(outcomes[done := Some(settled)]) ==
      Delivered(outcomes) + if settled.Rejected? then [] else [settled.frame]
  {
    var after := outcomes[done := Some(settled)];
    NothingMoreDelivered(outcomes, done);
    NothingMoreDelivered(after, done + 1);
    assert after[..done + 1][..done] == outcomes[..done];
  }

  lemma {:induction false} DeliveredAtMost(outcomes: seq<Option<Settled>>)
    ensures |Delivered(outcomes)| <= |outcomes|
    decreases |outcomes|
  {
    if outcomes != [] {
      DeliveredAtMost(outcomes[..|outcomes| - 1]);
    }
  }

  /** If no call is rejected, call `i` got frame `i`. */
  lemma {:induction false} DeliveredInOrder(outcomes: seq<Option<Settled>>, done: nat)
    requires done <= |outcomes|
    requires forall i :: 0 <= i < done ==> outcomes[i].Some? && !outcomes[i].value.Rejected?
    requires forall i :: done <= i < |outcomes| ==> outcomes[i].None?
    ensures |Delivered(outcomes)| == done
    ensures forall i :: 0 <= i < done ==> outcomes[i].value.frame == Delivered(outcomes)[i]
    decreases done
  {
    NothingMoreDelivered(outcomes, done);
    if done > 0 {
      var shorter := outcomes[..done][..done - 1];
      DeliveredInOrder(shorter, done - 1);
      assert outcomes[..done] == shorter + [outcomes[done - 1]];
    } else {
      assert outcomes[..0] == [];
    }
  }

  /** What the caller of `readFrame` holds. */
  datatype Promise = Fulfilled(frame: Frame) | Closed | ParseError | Pending

  /** One of the frames up to that number has a header `JSON.parse` throws on. */
  ghost predicate Broken(parses: seq<byte> -> bool, frames: seq<Frame>, call: nat) {
    exists k :: 0 <= k <= call && k < |frames| && !parses(frames[k].header)
  }

  class FrameReader {
    /** `JSON.parse` accepts a header. */
    const parses: seq<byte> -> bool
    var buffered: seq<byte>
    var ended: bool
    /** The calls that wait, oldest first. */
    var waiters: seq<nat>
    /** What was done for each call, if anything was. */
    var outcomes: seq<Option<Settled>>
    /** The calls inside which the loop threw: their promises are rejected with that error, whatever the
        loop does for them. */
    var failed: set<nat>
    /** All bytes received. */
    ghost var received: seq<byte>

    /** The promise of a call: one that is rejected or fulfilled stays so, and a frame that is lost leaves its
        call waiting for ever. */
    ghost function PromiseOf(call: nat): Promise
      reads this
      requires call < |outcomes|
    {
      if call in failed then ParseError
      else
        match outcomes[call]
        case Some(Resolved(frame)) => Fulfilled(frame)
        case Some(Rejected) => Closed
        case _ => Pending
    }

    /** The number of calls that have settled. */
    ghost function Done(): int
      reads this
    {
      |outcomes| - |waiters|
    }

    /** The number of frames taken. */
    ghost function Taken(): nat
      reads this
    {
      |Delivered(outcomes)|
    }

    /** Calls settle in order, each at most once, and the frames they get are the frames of the stream
        from the first on, none skipped and none given twice; only after the end may a call be rejected. */
    ghost predicate InOrder()
      reads this
    {
      && |waiters| <= |outcomes|
      && (forall j :: 0 <= j < |waiters| ==> waiters[j] == Done() + j)
      && (forall call :: call in failed ==> call < |outcomes| && Broken(parses, Frames(received), call))
      && (forall i :: 0 <= i < |outcomes| ==> (outcomes[i].Some? <==> i < Done()))
      && (forall i :: 0 <= i < Done() ==>
            if outcomes[i].value.Rejected? then ended else outcomes[i].value == Given(parses, outcomes[i].value.frame))
      && Taken() <= |Frames(received)|
      && Delivered(outcomes) == Frames(received)[..Taken()]
      && buffered == After(received, Taken())
    }

    /** ... and no call waits while a complete frame is buffered. */
    ghost predicate Valid()
      reads this
    {
      InOrder() && (waiters == [] || Taken() == |Frames(received)|)
    }

    constructor (parses: seq<byte> -> bool)
      ensures this.parses == parses && Valid() && !ended && received == [] && outcomes == [] && failed == {}
    {
      this.parses := parses;
      buffered, ended, waiters, outcomes, failed, received := [], false, [], [], {}, [];
    }

    /** The loop threw because of the last frame it took. */
    ghost predicate Threw()
      reads this
    {
      InOrder() && Taken() > 0 && !parses(Frames(received)[Taken() - 1].header)
    }

    /** `waiters.shift()` and what is done for that call: it is rejected after the end, or gets the first
        frame of the buffer. */
    method SettleNext(settled: Settled, rest: seq<byte>)
      requires InOrder() && waiters != []
      requires if settled.Rejected? then ended && rest == buffered
               else FirstFrame(buffered) == Some((settled.frame, rest)) && settled == Given(parses, settled.frame)
      modifies this`buffered, this`waiters, this`outcomes
      ensures InOrder() && |outcomes| == |old(outcomes)| && waiters == old(waiters)[1..] && buffered == rest
      ensures Taken() == old(Taken()) + if settled.Rejected? then 0 else 1
      ensures !settled.Rejected? ==> Frames(received)[Taken() - 1] == settled.frame
      ensures forall i :: 0 <= i < old(Done()) ==> outcomes[i] == old(outcomes)[i]
    {
      hide FirstFrame, Frames, After, Delivered, Given, Broken;
      var call := waiters[0];
      NextFrame(received, Taken());
      DeliveredNext(outcomes, call, settled);
      assert Taken() < |Frames(received)| ==> Frames(received)[..Taken() + 1] == Frames(received)[..Taken()] + [Frames(received)[Taken()]];
      buffered := rest;
      waiters := waiters[1..];
      outcomes := outcomes[call := Some(settled)];
    }

    /** At most one call is rejected, every other one that settles takes a frame, and the loop goes on until
        nothing is left to do unless a header it has taken does not parse. */
    method TryResolve() returns (thrown: bool)
      requires InOrder()
      modifies this`buffered, this`waiters, this`outcomes
      ensures InOrder() && (if thrown then Threw() else Valid()) && |outcomes| == |old(outcomes)|
      ensures forall i :: 0 <= i < old(Done()) ==> outcomes[i] == old(outcomes)[i]
      ensures old(Taken()) <= Taken() && Done() - old(Done()) <= Taken() - old(Taken()) + 1
    {
      hide FirstFrame, Frames, After, Delivered, Given, Broken;
      while waiters != []
        invariant InOrder() && |outcomes| == |old(outcomes)| && old(Done()) <= Done()
        invariant forall i :: 0 <= i < old(Done()) ==> outcomes[i] == old(outcomes)[i]
        invariant old(Taken()) <= Taken() && Done() - old(Done()) == Taken() - old(Taken())
        decreases |waiters|
      {
        NextFrame(received, Taken());
        var first := FirstFrame(buffered);
        if |buffered| >= 8 {
          if first.None? {
            break;
          }
          GivenIsNotRejected(parses, first.value.0);
          SettleNext(Given(parses, first.value.0), first.value.1);
          if !parses(first.value.0.header) {
            return true;
          }
          continue;
        }
        NoFrameBelowEight(buffered);
        if ended {
          SettleNext(Rejected, buffered);
        }
        break;
      }
      return false;
    }

    method OnData(chunk: seq<byte>) returns (thrown: bool)
      requires InOrder()
      modifies this
      ensures InOrder() && (if thrown then Threw() else Valid()) && failed == old(failed)
      ensures ended == old(ended) && received == old(received) + chunk && |outcomes| == |old(outcomes)|
      ensures forall i :: 0 <= i < old(Done()) ==> outcomes[i] == old(outcomes)[i]
      ensures forall i :: 0 <= i < |old(outcomes)| && !old(PromiseOf(i)).Pending? ==> PromiseOf(i) == old(PromiseOf(i))
    {
      hide FirstFrame, Frames, After, Delivered;
      ghost var before := Frames(received);
      FramesExtend(received, chunk);
      AfterExtends(received, chunk, Taken());
      assert Frames(received + chunk)[..Taken()] == Frames(received + chunk)[..|Frames(received)|][..Taken()];
      buffered := if buffered == [] then chunk else buffered + chunk;
      received := received + chunk;
      StillBroken(parses, before, Frames(received), failed);
      thrown := TryResolve();
    }

    /** `end`, `close` and `error` alike. */
    method OnEnd() returns (thrown: bool)
      requires InOrder()
      modifies this
      ensures InOrder() && (if thrown then Threw() else Valid()) && failed == old(failed)
      ensures ended && received == old(received) && |outcomes| == |old(outcomes)|
      ensures forall i :: 0 <= i < old(Done()) ==> outcomes[i] == old(outcomes)[i]
      ensures forall i :: 0 <= i < |old(outcomes)| && !old(PromiseOf(i)).Pending? ==> PromiseOf(i) == old(PromiseOf(i))
    {
      ended := true;
      thrown := TryResolve();
    }

    method AddWaiter() returns (call: nat)
      requires InOrder()
      modifies this`outcomes, this`waiters
      ensures InOrder() && call == |old(outcomes)| && outcomes == old(outcomes) + [None] && Done() == old(Done())
    {
      hide FirstFrame, Frames, After, Delivered, Given, Broken;
      call := |outcomes|;
      outcomes := outcomes + [None];
      assert outcomes[..call] == old(outcomes);
      NothingMoreDelivered(outcomes, call);
      waiters := waiters + [call];
    }

    method ReadFrame() returns (call: nat)
      requires InOrder()
      modifies this
      ensures InOrder() && failed == if call in failed then old(failed) + {call} else old(failed)
      ensures if call in failed then Threw() else Valid()
      ensures ended == old(ended) && received == old(received)
      ensures call == |old(outcomes)| && |outcomes| == call + 1
      ensures forall i :: 0 <= i < old(Done()) ==> outcomes[i] == old(outcomes)[i]
      ensures forall i :: 0 <= i < |old(outcomes)| && !old(PromiseOf(i)).Pending? ==> PromiseOf(i) == old(PromiseOf(i))
    {
      hide FirstFrame, Frames, After, Delivered, Given, Broken;
      call := AddWaiter();
      var thrown := TryResolve();
      if thrown {
        DeliveredAtMost(outcomes);
        BrokenAt(parses, Frames(received), Taken() - 1, call);
        failed := failed + {call};
      }
    }
  }

  lemma BrokenAt(parses: seq<byte> -> bool, frames: seq<Frame>, k: nat, call: nat)
    requires k <= call && k < |frames| && !parses(frames[k].header)
    ensures Broken(parses, frames, call)
  {
  }

  lemma StillBroken(parses: seq<byte> -> bool, frames: seq<Frame>, more: seq<Frame>, failed: set<nat>)
    requires |frames| <= |more| && more[..|frames|] == frames
    requires forall call :: call in failed ==> Broken(parses, frames, call)
    ensures forall call :: call in failed ==> Broken(parses, more, call)
  {
    forall call | call in failed ensures Broken(parses, more, call) {
      var k :| 0 <= k <= call && k < |frames| && !parses(frames[k].header);
      assert more[..|frames|][k] == more[k];
    }
  }

  lemma GivenIsNotRejected(parses: seq<byte> -> bool, frame: Frame)
    ensures !Given(parses, frame).Rejected? && Given(parses, frame).frame == frame
  {
  }

  lemma NoFrameBelowEight(bytes: seq<byte>)
    ensures |bytes| < 8 ==> FirstFrame(bytes).None?
  {
  }

  /** Before the end of the stream, and unless the last event threw, something was done for the `i`-th
      call exactly when the `i`-th frame is complete: it got that frame, if the header parses.  The bytes
      received are the frames taken and the buffer. */
  lemma CallsAreServed(reader: FrameReader)
    requires reader.Valid() && !reader.ended
    ensures forall i :: 0 <= i < |reader.outcomes| ==>
      reader.outcomes[i] ==
      if i < |Frames(reader.received)| then Some(Given(reader.parses, Frames(reader.received)[i])) else None
    ensures reader.received == FramesBytes(Delivered(reader.outcomes)) + reader.buffered
  {
    hide Frames, After;
    DeliveredInOrder(reader.outcomes, reader.Done());
    StreamIsItsFrames(reader.received, reader.Taken());
  }

  /** The promise of the `i`-th call is fulfilled, with the `i`-th frame, exactly when that frame is complete
      and has a header that parses, and no parse threw inside the call; and none did if no frame up to the
      `i`-th has a header that does not parse. */
  lemma CallsGetTheirFrames(reader: FrameReader, i: nat)
    requires reader.Valid() && !reader.ended && i < |reader.outcomes|
    ensures var frames := Frames(reader.received);
      && reader.PromiseOf(i) ==
         (if i in reader.failed then ParseError
          else if i < |frames| && reader.parses(frames[i].header) then Fulfilled(frames[i]) else Pending)
      && (i in reader.failed ==> Broken(reader.parses, frames, i))
      && reader.received == FramesBytes(Delivered(reader.outcomes)) + reader.buffered
  {
    hide Frames, After, Delivered;
    CallsAreServed(reader);
  }

  /** Before the end of the stream the bytes received and the number of calls decide which calls are served
      with what, however the bytes were cut into events and whatever order the events and calls came in; and
      while every header parses, they decide every promise. */
  lemma ChunkingIsInvisible(a: FrameReader, b: FrameReader)
    requires a.parses == b.parses && a.Valid() && b.Valid() && !a.ended && !b.ended
    requires a.received == b.received && |a.outcomes| == |b.outcomes|
    ensures a.outcomes == b.outcomes && a.buffered == b.buffered && a.waiters == b.waiters
    ensures (forall k :: 0 <= k < |Frames(a.received)| ==> a.parses(Frames(a.received)[k].header)) ==>
      forall i :: 0 <= i < |a.outcomes| ==> a.PromiseOf(i) == b.PromiseOf(i)
  {
    hide Frames, After, Delivered;
    CallsAreServed(a);
    CallsAreServed(b);
    assert forall i :: 0 <= i < |a.outcomes| ==> a.outcomes[i] == b.outcomes[i];
    assert a.outcomes == b.outcomes;
    SettledCounts(a.outcomes, a.Done(), b.Done());
  }

  lemma SettledCounts(outcomes: seq<Option<Settled>>, m: nat, n: nat)
    requires m <= |outcomes| && n <= |outcomes|
    requires forall i :: 0 <= i < |outcomes| ==> (outcomes[i].Some? <==> i < m)
    requires forall i :: 0 <= i < |outcomes| ==> (outcomes[i].Some? <==> i < n)
    ensures m == n
  {
    assert m < |outcomes| ==> outcomes[m].None?;
    assert n < |outcomes| ==> outcomes[n].None?;
  }

  /** Nothing throws while every header received parses: then each call that was served has its frame. */
  lemma NothingThrows(reader: FrameReader)
    requires reader.InOrder() && forall i :: 0 <= i < |Frames(reader.received)| ==> reader.parses(Frames(reader.received)[i].header)
    ensures !reader.Threw()
  {
  }
}
