/** The capture side of the hand-off: what a port does with an audio chunk and with the start and
    stop of a call. Each method, when no other thread runs meanwhile, is shown to take exactly the
    listed steps of `TapeHandOff`. */
module CapturePorts {
  import opened Common
  import opened AudioTapes
  import opened TapeHandOff
  import IP = ImmediateProcessing

  function ChunkSteps(s: System, p: nat, chunk: Chunk): (r: seq<Step>)
    requires p < |s.ports| && (s.ports[p].tape.Some? ==> s.ports[p].tape.value < |s.tapes|)
  {
    if s.ports[p].tape.None? || !s.ports[p].capturing then []
    else if TakesChunks(s.tapes[s.ports[p].tape.value]) then
      [OfferChunk(p, chunk), EnqueueChunk(p), PushTape(p), ReleaseSemaphore(p)]
    else [OfferChunk(p, chunk), PushTape(p), ReleaseSemaphore(p)]
  }

  function StopSteps(s: System, p: nat): (r: seq<Step>)
    requires p < |s.ports|
  {
    if s.ports[p].tape.None? then [] else [StopCall(p), PushTape(p), ReleaseSemaphore(p)]
  }

  lemma PushSteps(s: System, p: nat, limits: Limits)
    requires Next(s, PushTape(p), limits).Some?
    ensures Run(s, [PushTape(p), ReleaseSemaphore(p)], limits)
      == Next(Next(s, PushTape(p), limits).value, ReleaseSemaphore(p), limits)
  {
    var n := Next(s, PushTape(p), limits).value;
    RunCons(s, PushTape(p), [ReleaseSemaphore(p)], limits);
    RunCons(n, ReleaseSemaphore(p), [], limits);
    assert [PushTape(p), ReleaseSemaphore(p)] == [PushTape(p)] + [ReleaseSemaphore(p)];
    assert [ReleaseSemaphore(p)] + [] == [ReleaseSemaphore(p)];
  }

  lemma RunNothing(s: System, limits: Limits)
    ensures Run(s, [], limits) == Some(s)
  {}

  /** A port does not take the deque's mutex before its Push. */
  lemma StaysUnlocked(s: System, step: Step, limits: Limits)
    requires !DequeLocked(s) && Next(s, step, limits).Some?
    requires step.OfferChunk? || step.EnqueueChunk? || step.StopCall?
    ensures !DequeLocked(Next(s, step, limits).value)
  {
    hide Enqueue, TakesChunks;
  }

  lemma QueuedIsThere(objects: seq<AudioTape>, s: System, processing: IP.ImmediateProcessing, t: nat)
    requires processing.Matches(objects, s) && t < |objects| && t in s.deque
    ensures objects[t] in processing.audioTapeQueue
  {
    var i :| 0 <= i < |s.deque| && s.deque[i] == t;
    assert processing.audioTapeQueue[i] == objects[t];
  }

  /** What the steps of a stop come to, in the fields of the machine. */
  lemma StopTells(s: System, p: nat, limits: Limits)
    requires p < |s.ports| && s.ports[p].pc.Idle? && !DequeLocked(s)
    requires s.ports[p].tape.Some? ==> s.ports[p].tape.value < |s.tapes|
    ensures Run(s, StopSteps(s, p), limits).Some?
    ensures var n := Run(s, StopSteps(s, p), limits).value;
      match s.ports[p].tape
      case None => n == s
      case Some(t) =>
        && n.ports == s.ports[p := Port(Some(t), false, Idle)]
        && n.tapes == s.tapes[t := s.tapes[t].(shouldStop := true, isQueued := true)]
        && n.permits == s.permits + 1
        && n.deque == (if s.tapes[t].isQueued then s.deque else s.deque + [t])
        && (Inv(s, limits) ==> t in n.deque)
  {
    hide Run, DequeLocked, Inv, StopSteps;
    if s.ports[p].tape.Some? {
      var t := s.ports[p].tape.value;
      var n := StopRuns(s, p, limits);
      var tape := s.tapes[t].(shouldStop := true);
      assert s.tapes[t := tape][t := tape.(isQueued := true)] == s.tapes[t := tape.(isQueued := true)];
      assert tape.isQueued ==> tape.(isQueued := true) == tape;
      QueuedInDeque(s, t, limits);
    } else {
      NoStopSteps(s, p, limits);
    }
  }

  lemma NoStopSteps(s: System, p: nat, limits: Limits)
    requires p < |s.ports| && s.ports[p].tape.None?
    ensures Run(s, StopSteps(s, p), limits) == Some(s)
  {}

  lemma NoChunkSteps(s: System, p: nat, chunk: Chunk, limits: Limits)
    requires p < |s.ports| && (s.ports[p].tape.Some? ==> s.ports[p].tape.value < |s.tapes|)
    requires s.ports[p].tape.None? || !s.ports[p].capturing
    ensures Run(s, ChunkSteps(s, p, chunk), limits) == Some(s)
  {}

  lemma QueuedInDeque(s: System, t: nat, limits: Limits)
    requires t < |s.tapes|
    ensures Inv(s, limits) && s.tapes[t].isQueued ==> t in s.deque
  {}

  /** What the steps of a chunk come to: the tape that takes chunks gets it unless three batches are
      queued, and is in the deque. */
  lemma ChunkTells(s: System, p: nat, chunk: Chunk, limits: Limits)
    requires p < |s.ports| && s.ports[p].pc.Idle? && !DequeLocked(s)
    requires s.ports[p].tape.Some? ==> s.ports[p].tape.value < |s.tapes|
    ensures Run(s, ChunkSteps(s, p, chunk), limits).Some?
    ensures var n := Run(s, ChunkSteps(s, p, chunk), limits).value;
      if s.ports[p].tape.None? || !s.ports[p].capturing then n == s
      else
        var t := s.ports[p].tape.value;
        var before := s.tapes[t];
        && n.ports == s.ports && n.permits == s.permits + 1 && |n.tapes| == |s.tapes|
        && n.deque == (if before.isQueued then s.deque else s.deque + [t])
        && n.tapes[t].isQueued
        && (before.state == Created || before.state == Active ==>
              var after := n.tapes[t].queue;
              if before.queue.dataSize < 3 * 1024 * limits.batchKByte
              then after.chunks == before.queue.chunks + [chunk] && after.rejectedCount == before.queue.rejectedCount
              else after == before.queue.(rejectedCount := before.queue.rejectedCount + 1))
        && (Inv(s, limits) ==> t in n.deque && (before.state == Created || before.state == Active))
  {
    hide Run, DequeLocked, Inv, ChunkSteps, Enqueue;
    if s.ports[p].tape.None? || !s.ports[p].capturing {
      NoChunkSteps(s, p, chunk, limits);
    } else {
      var t := s.ports[p].tape.value;
      var n := ChunkRuns(s, p, chunk, limits);
      QueuedInDeque(s, t, limits);
      CapturingOpens(s, limits, p);
      EnqueueTakesIff(s.tapes[t].queue, chunk, limits);
      assert s.ports[p := n.ports[p]][p := s.ports[p]] == s.ports;
    }
  }

  /** The state before the push, and the rest of the run. */
  lemma StopRuns(s: System, p: nat, limits: Limits) returns (n: System)
    requires p < |s.ports| && s.ports[p].pc.Idle? && !DequeLocked(s)
    requires s.ports[p].tape.Some? && s.ports[p].tape.value < |s.tapes|
    ensures var t := s.ports[p].tape.value;
      n == s.(tapes := s.tapes[t := s.tapes[t].(shouldStop := true)], ports := s.ports[p := Port(Some(t), false, Pushing)])
    ensures Next(n, PushTape(p), limits).Some?
    ensures Run(s, StopSteps(s, p), limits) == Next(Next(n, PushTape(p), limits).value, ReleaseSemaphore(p), limits)
  {
    n := Next(s, StopCall(p), limits).value;
    StaysUnlocked(s, StopCall(p), limits);
    hide DequeLocked;
    RunCons(s, StopCall(p), [PushTape(p), ReleaseSemaphore(p)], limits);
    PushSteps(n, p, limits);
    hide Run;
    assert StopSteps(s, p) == [StopCall(p)] + [PushTape(p), ReleaseSemaphore(p)];
  }

  lemma ChunkRuns(s: System, p: nat, chunk: Chunk, limits: Limits) returns (n: System)
    requires p < |s.ports| && s.ports[p].pc.Idle? && s.ports[p].capturing && !DequeLocked(s)
    requires s.ports[p].tape.Some? && s.ports[p].tape.value < |s.tapes|
    ensures var t := s.ports[p].tape.value;
      n == s.(tapes := s.tapes[t := Offer(s.tapes[t], chunk, limits)], ports := s.ports[p := Port(Some(t), true, Pushing)])
    ensures Next(n, PushTape(p), limits).Some?
    ensures Run(s, ChunkSteps(s, p, chunk), limits) == Next(Next(n, PushTape(p), limits).value, ReleaseSemaphore(p), limits)
  {
    var t := s.ports[p].tape.value;
    var push := [PushTape(p), ReleaseSemaphore(p)];
    n := Next(s, OfferChunk(p, chunk), limits).value;
    StaysUnlocked(s, OfferChunk(p, chunk), limits);
    hide DequeLocked, Enqueue;
    RunCons(s, OfferChunk(p, chunk), if TakesChunks(s.tapes[t]) then [EnqueueChunk(p)] + push else push, limits);
    if TakesChunks(s.tapes[t]) {
      var offered := n;
      RunCons(offered, EnqueueChunk(p), push, limits);
      StaysUnlocked(offered, EnqueueChunk(p), limits);
      n := Next(offered, EnqueueChunk(p), limits).value;
      assert s.ports[p := offered.ports[p]][p := n.ports[p]] == s.ports[p := n.ports[p]];
      assert ChunkSteps(s, p, chunk) == [OfferChunk(p, chunk)] + ([EnqueueChunk(p)] + push);
    } else {
      assert s.tapes[t := s.tapes[t]] == s.tapes;
      assert ChunkSteps(s, p, chunk) == [OfferChunk(p, chunk)] + push;
    }
    PushSteps(n, p, limits);
  }

  lemma CapturingOpens(s: System, limits: Limits, p: nat)
    requires p < |s.ports| && s.ports[p].capturing
    ensures Inv(s, limits) ==>
      s.ports[p].tape.Some? && s.ports[p].tape.value < |s.tapes| && TakesChunks(s.tapes[s.ports[p].tape.value])
  {
    if Inv(s, limits) {
      CapturingTapeIsOpen(s, limits, p);
    }
  }

  class CapturePort {
    var tape: AudioTape?
    var capturing: bool

    constructor ()
      ensures tape == null && !capturing
    {
      tape, capturing := null, false;
    }

    /** This object is port `p` of `s`, between two calls. */
    ghost predicate IsPort(objects: seq<AudioTape>, s: System, p: nat)
      reads this
    {
      && p < |s.ports| && s.ports[p].pc.Idle? && s.ports[p].capturing == capturing
      && (s.ports[p].tape.None? <==> tape == null)
      && (tape != null ==> s.ports[p].tape.value < |objects| == |s.tapes| && tape == objects[s.ports[p].tape.value])
    }

    method TakeChunkSteps(chunk: Chunk, processing: IP.ImmediateProcessing,
                          ghost objects: seq<AudioTape>, ghost s: System, ghost p: nat, limits: Limits)
      requires processing.Matches(objects, s) && IsPort(objects, s, p) && !DequeLocked(s)
      modifies processing, objects
      ensures Run(s, ChunkSteps(s, p, chunk), limits).Some?
      ensures processing.Matches(objects, Run(s, ChunkSteps(s, p, chunk), limits).value)
      ensures IsPort(objects, Run(s, ChunkSteps(s, p, chunk), limits).value, p)
      ensures tape == old(tape) && capturing == old(capturing)
    {
      hide Run, Next, DequeLocked, Enqueue, ChunkSteps;
      ChunkTells(s, p, chunk, limits);
      if tape != null && capturing {
        ghost var n := ChunkRuns(s, p, chunk, limits);
        tape.AddAudioChunk(chunk, limits);
        processing.Push(tape, objects, n, p, limits);
      }
    }

    /** A chunk goes to the tape of a capturing port, which takes it unless three batches are queued, and
        the tape is in the deque with a permit more. In every state the machine reaches that tape is
        open. */
    method AddAudioChunk(chunk: Chunk, processing: IP.ImmediateProcessing,
                         ghost objects: seq<AudioTape>, ghost s: System, ghost p: nat, limits: Limits)
      requires processing.Matches(objects, s) && IsPort(objects, s, p) && !DequeLocked(s)
      modifies processing, objects
      ensures Run(s, ChunkSteps(s, p, chunk), limits).Some?
      ensures processing.Matches(objects, Run(s, ChunkSteps(s, p, chunk), limits).value)
      ensures IsPort(objects, Run(s, ChunkSteps(s, p, chunk), limits).value, p)
      ensures tape == old(tape) && capturing == old(capturing)
      ensures tape == null || !capturing ==> processing.permits == old(processing.permits)
      ensures tape != null && !capturing ==> tape.Model() == old(tape.Model())
      ensures tape != null && capturing ==> processing.permits == old(processing.permits) + 1 && tape.isQueued
      ensures tape != null && capturing && (old(tape.state) == Created || old(tape.state) == Active) ==>
        (var room := old(tape.chunkQueueDataSize) < 3 * 1024 * limits.batchKByte;
        && tape.chunkQueue == (if room then old(tape.chunkQueue) + [chunk] else old(tape.chunkQueue))
        && tape.rejectedCount == old(tape.rejectedCount) + (if room then 0 else 1))
      ensures Inv(s, limits) && tape != null && capturing ==>
        tape in processing.audioTapeQueue && (old(tape.state) == Created || old(tape.state) == Active)
    {
      hide Run, Next, DequeLocked, Inv, ChunkSteps;
      ghost var n := Run(s, ChunkSteps(s, p, chunk), limits);
      ChunkTells(s, p, chunk, limits);
      ghost var queue := processing.audioTapeQueue;
      TakeChunkSteps(chunk, processing, objects, s, p, limits);
      if tape != null && Inv(s, limits) && capturing {
        QueuedIsThere(objects, n.value, processing, s.ports[p].tape.value);
      }
    }

    method TakeStopSteps(processing: IP.ImmediateProcessing,
                         ghost objects: seq<AudioTape>, ghost s: System, ghost p: nat, limits: Limits)
      requires processing.Matches(objects, s) && IsPort(objects, s, p) && !DequeLocked(s)
      modifies this, processing, objects
      ensures Run(s, StopSteps(s, p), limits).Some?
      ensures processing.Matches(objects, Run(s, StopSteps(s, p), limits).value)
      ensures IsPort(objects, Run(s, StopSteps(s, p), limits).value, p)
      ensures tape == old(tape)
    {
      hide Run, Next, DequeLocked, StopSteps;
      StopTells(s, p, limits);
      if tape != null {
        ghost var n := StopRuns(s, p, limits);
        capturing := false;
        tape.SetShouldStop();
        processing.Push(tape, objects, n, p, limits);
      }
    }

    /** The port of a call that stops captures no longer, its tape is told to stop, and it is in the deque
        with a permit more. */
    method Stop(processing: IP.ImmediateProcessing,
                ghost objects: seq<AudioTape>, ghost s: System, ghost p: nat, limits: Limits)
      requires processing.Matches(objects, s) && IsPort(objects, s, p) && !DequeLocked(s)
      modifies this, processing, objects
      ensures Run(s, StopSteps(s, p), limits).Some?
      ensures processing.Matches(objects, Run(s, StopSteps(s, p), limits).value)
      ensures IsPort(objects, Run(s, StopSteps(s, p), limits).value, p)
      ensures tape == old(tape)
      ensures tape == null ==> capturing == old(capturing) && processing.permits == old(processing.permits)
      ensures tape != null ==> !capturing && tape.Model() == old(tape.Model()).(shouldStop := true, isQueued := true)
      ensures tape != null ==> processing.permits == old(processing.permits) + 1
      ensures Inv(s, limits) && tape != null ==> tape in processing.audioTapeQueue
    {
      hide Run, Next, DequeLocked, Inv, StopSteps;
      ghost var n := Run(s, StopSteps(s, p), limits);
      StopTells(s, p, limits);
      TakeStopSteps(processing, objects, s, p, limits);
      if tape != null && Inv(s, limits) {
        QueuedIsThere(objects, n.value, processing, s.ports[p].tape.value);
      }
    }

    /** The new call gets a new tape; the old one is told to stop and left at that. */
    method Start(processing: IP.ImmediateProcessing,
                 ghost objects: seq<AudioTape>, ghost s: System, ghost p: nat, limits: Limits)
      returns (ghost objects': seq<AudioTape>)
      requires processing.Matches(objects, s) && IsPort(objects, s, p)
      modifies this, objects
      ensures Next(s, StartCall(p), limits).Some?
      ensures processing.Matches(objects', Next(s, StartCall(p), limits).value)
      ensures IsPort(objects', Next(s, StartCall(p), limits).value, p)
      ensures capturing && tape != null && fresh(tape) && tape.state == Created && !tape.shouldStop && !tape.isQueued && tape.chunkQueue == []
      ensures old(tape) != null ==> old(tape).Model() == old(tape.Model()).(shouldStop := true)
    {
      capturing := true;
      if tape != null {
        tape.SetShouldStop();
      }
      tape := new AudioTape();
      objects' := objects + [tape];
    }
  }
}
