/** The deque of tapes waiting for the writer thread. Push and Pop are shown to be the steps of
    `TapeHandOff`, on real tapes. */
module ImmediateProcessing {
  import opened Common
  import opened AudioTapes
  import opened TapeHandOff

  /** What becomes of a tape after a turn of the writer. */
  datatype Fate = NotReady | Deleted | Processed

  class ImmediateProcessing {
    var audioTapeQueue: seq<AudioTape>
    var permits: nat

    /** The object's deque, semaphore and tapes are those of `s`; `objects[t]` is tape `t`. */
    ghost predicate Matches(objects: seq<AudioTape>, s: System)
      reads this, objects
    {
      && permits == s.permits
      && |objects| == |s.tapes| && |audioTapeQueue| == |s.deque|
      && (forall t, u | 0 <= t < u < |objects| :: objects[t] != objects[u])
      && (forall t | 0 <= t < |objects| :: objects[t].Model() == s.tapes[t])
      && (forall i | 0 <= i < |s.deque| :: s.deque[i] < |objects| && audioTapeQueue[i] == objects[s.deque[i]])
    }

    /** The semaphore starts at one and is taken once, so nothing can be popped yet. */
    constructor ()
      ensures Matches([], Init(0))
    {
      audioTapeQueue := [];
      permits := 1;
      new;
      permits := permits - 1;
    }

    method Push(tape: AudioTape?, ghost objects: seq<AudioTape>, ghost s: System, ghost p: nat, limits: Limits)
      requires Matches(objects, s)
      requires tape != null ==>
        && Next(s, PushTape(p), limits).Some?
        && s.ports[p].tape.value < |objects| && tape == objects[s.ports[p].tape.value]
      modifies this, objects
      ensures if tape == null then Matches(objects, s)
        else Matches(objects, Next(Next(s, PushTape(p), limits).value, ReleaseSemaphore(p), limits).value)
      ensures tape == null ==> permits == old(permits) && audioTapeQueue == old(audioTapeQueue)
      ensures tape != null ==>
        && permits == old(permits) + 1
        && audioTapeQueue == (if old(tape.isQueued) then old(audioTapeQueue) else old(audioTapeQueue) + [tape])
        && tape.Model() == old(tape.Model()).(isQueued := true)
      ensures forall o | o in objects && o != tape :: o.Model() == old(o.Model())
    {
      if tape == null {
        return;
      }
      if !tape.isQueued {
        tape.isQueued := true;
        audioTapeQueue := audioTapeQueue + [tape];
      }
      permits := permits + 1;
    }

    /** The part of Pop after the semaphore was passed; None when the deque turned out empty. */
    method Pop(ghost objects: seq<AudioTape>, ghost s: System, limits: Limits) returns (tape: AudioTape?)
      requires permits > 0
      requires Matches(objects, s) && s.worker.Waiting? && !DequeLocked(s)
      modifies this, objects
      ensures var acquired := Next(s, AcquireSemaphore, limits).value;
        && Next(acquired, PopTape, limits).Some?
        && var n := Next(acquired, PopTape, limits).value;
           && Matches(objects, n)
           && (tape == null <==> n.worker.Waiting?)
           && (tape != null ==> n.worker.AtDrain? && n.worker.tape < |objects| && tape == objects[n.worker.tape])
      ensures permits == old(permits) - 1
      ensures if old(audioTapeQueue) == [] then tape == null && audioTapeQueue == []
        else tape == old(audioTapeQueue)[0] && audioTapeQueue == old(audioTapeQueue)[1..] && !tape.isQueued
    {
      permits := permits - 1;
      tape := null;
      if |audioTapeQueue| > 0 {
        tape := audioTapeQueue[0];
        audioTapeQueue := audioTapeQueue[1..];
        tape.isQueued := false;
      }
    }

    /** One turn of the writer's loop for the tape it popped, while no port touches that tape: the
        machine's steps from the drain to the hand-off, and what becomes of the tape. */
    method Handle(tape: AudioTape, ghost objects: seq<AudioTape>, ghost s: System, limits: Limits, fails: nat -> bool,
                  duration: int, durationMinimumSec: int, keep: bool) returns (fate: Fate)
      requires Matches(objects, s) && s.worker.AtDrain? && s.worker.tape < |objects|
      requires tape == objects[s.worker.tape]
      modifies tape
      ensures Run(s, WriterSteps(s.tapes[s.worker.tape], limits, fails), limits).Some?
      ensures Matches(objects, Run(s, WriterSteps(s.tapes[s.worker.tape], limits, fails), limits).value)
      ensures var n, t := Run(s, WriterSteps(s.tapes[s.worker.tape], limits, fails), limits).value, s.worker.tape;
        && n.worker.Waiting?
        && n.handedOff == (if fate.NotReady? then s.handedOff else s.handedOff + [t])
      ensures !fate.NotReady? ==>
        (fate.Processed? <==> (durationMinimumSec <= 0 || duration >= durationMinimumSec) && keep)
    {
      hide WriteAll, WriterSteps, Run;
      WriterTurn(s, s.worker.tape, limits, fails);
      tape.Write(limits, fails);
      var isReady := tape.IsReadyForBatchProcessing();
      if !isReady {
        return NotReady;
      }
      if durationMinimumSec > 0 && duration < durationMinimumSec {
        return Deleted;
      } else if !keep {
        return Deleted;
      }
      return Processed;
    }
  }
}
