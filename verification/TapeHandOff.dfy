/** Capture threads hand tapes to the one writer thread through a deque, a flag and a semaphore.

    Each step is one section under a mutex or one read or write of a shared flag, so every
    interleaving the source allows is a sequence of steps. A port is served by one thread at a
    time; any number of ports interleave with the writer. */
module TapeHandOff {
  import opened Common
  import opened AudioTapes

  /** Where a port is in AddAudioChunk or AddCaptureEvent. `Releasing` is inside Push, after the
      deque was updated and before the semaphore was released; it holds the deque's mutex. */
  datatype PortPc = Idle | Adding(chunk: Chunk) | Pushing | Releasing

  /** `tape` is the port's current tape, an index into the system's tapes. */
  datatype Port = Port(tape: Option<nat>, capturing: bool, pc: PortPc)

  /** Where the writer is in its loop. `Acquired` is inside Pop, past the semaphore. */
  datatype Worker =
    | Waiting
    | Acquired
    | AtDrain(tape: nat)
    | AtRecord(tape: nat, chunk: Chunk)
    | AtStopCheck(tape: nat)
    | AtHandOff(tape: nat)

  /** `handedOff` is the history of tapes the writer was done with: each goes on to the processing chain,
      or is deleted for being too short or not to be kept. `stranded` is the history
      of tapes that a new call on their port stopped without a Push while they were neither queued
      nor held by the writer before its stop test. */
  datatype System = System(
    tapes: seq<Tape>,
    ports: seq<Port>,
    deque: seq<nat>,
    permits: nat,
    worker: Worker,
    handedOff: seq<nat>,
    stranded: set<nat>)

  datatype Step =
    | StartCall(port: nat)
    | OfferChunk(port: nat, chunk: Chunk)
    | StopCall(port: nat)
    | EnqueueChunk(port: nat)
    | PushTape(port: nat)
    | ReleaseSemaphore(port: nat)
    | AcquireSemaphore
    | PopTape
    | DrainStep
    | RecordStep(fails: bool)
    | StopCheckStep
    | HandOffStep

  predicate FromOutside(step: Step) { step.StartCall? || step.OfferChunk? || step.StopCall? }

  function Init(ports: nat): (s: System) {
    System([], seq(ports, _ => Port(None, false, Idle)), [], 0, Waiting, [], {})
  }

  predicate DequeLocked(s: System) { exists p | 0 <= p < |s.ports| :: s.ports[p].pc.Releasing? }

  /** The writer holds `t` and will still test its stop flag. */
  predicate Held(w: Worker, t: nat) {
    match w
    case AtDrain(u) => u == t
    case AtRecord(u, _) => u == t
    case AtStopCheck(u) => u == t
    case _ => false
  }

  /** The writer holds `t` and will still look at its queue. */
  predicate MayTake(w: Worker, t: nat) { (w.AtDrain? || w.AtRecord?) && w.tape == t }

  function SetPc(s: System, p: nat, pc: PortPc): (r: System)
    requires p < |s.ports|
  {
    s.(ports := s.ports[p := s.ports[p].(pc := pc)])
  }

  /** The step taken, or None when it cannot happen in `s`. */
  function Next(s: System, step: Step, limits: Limits): (r: Option<System>) {
    match step
    case StartCall(p) => if p < |s.ports| && s.ports[p].pc.Idle? then Some(StartNext(s, p)) else None
    case OfferChunk(p, c) =>
      if p < |s.ports| && s.ports[p].pc.Idle? && s.ports[p].capturing
         && s.ports[p].tape.Some? && s.ports[p].tape.value < |s.tapes|
      then Some(SetPc(s, p, if TakesChunks(s.tapes[s.ports[p].tape.value]) then Adding(c) else Pushing))
      else None
    case StopCall(p) =>
      if p < |s.ports| && s.ports[p].pc.Idle? && s.ports[p].tape.Some? && s.ports[p].tape.value < |s.tapes|
      then Some(StopNext(s, p, s.ports[p].tape.value)) else None
    case EnqueueChunk(p) =>
      if p < |s.ports| && s.ports[p].pc.Adding? && s.ports[p].tape.Some? && s.ports[p].tape.value < |s.tapes|
      then Some(EnqueueNext(s, p, s.ports[p].tape.value, limits)) else None
    case PushTape(p) =>
      if p < |s.ports| && s.ports[p].pc.Pushing? && s.ports[p].tape.Some? && s.ports[p].tape.value < |s.tapes|
         && !DequeLocked(s)
      then Some(PushNext(s, p, s.ports[p].tape.value)) else None
    case ReleaseSemaphore(p) =>
      if p < |s.ports| && s.ports[p].pc.Releasing?
      then Some(SetPc(s, p, Idle).(permits := s.permits + 1)) else None
    case AcquireSemaphore =>
      if s.worker.Waiting? && s.permits > 0
      then Some(s.(permits := s.permits - 1, worker := Acquired)) else None
    case PopTape =>
      if s.worker.Acquired? && !DequeLocked(s) && (s.deque == [] || s.deque[0] < |s.tapes|)
      then Some(PopNext(s)) else None
    case DrainStep =>
      if s.worker.AtDrain? && s.worker.tape < |s.tapes| then Some(DrainNext(s, s.worker.tape)) else None
    case RecordStep(fails) =>
      if s.worker.AtRecord? && s.worker.tape < |s.tapes|
      then Some(s.(tapes := s.tapes[s.worker.tape := Record(s.tapes[s.worker.tape], s.worker.chunk, limits, fails)],
                   worker := AtDrain(s.worker.tape)))
      else None
    case StopCheckStep =>
      if s.worker.AtStopCheck? && s.worker.tape < |s.tapes|
      then Some(s.(tapes := s.tapes[s.worker.tape := CheckStop(s.tapes[s.worker.tape])],
                   worker := AtHandOff(s.worker.tape)))
      else None
    case HandOffStep =>
      if s.worker.AtHandOff? && s.worker.tape < |s.tapes| then Some(HandOffNext(s, s.worker.tape)) else None
  }

  /** EtStart: the port's previous tape is told to stop, but is not pushed. */
  function StartNext(s: System, p: nat): (r: System)
    requires p < |s.ports|
  {
    var started := s.ports[p := Port(Some(|s.tapes|), true, Idle)];
    match s.ports[p].tape
    case None => s.(tapes := s.tapes + [NEW_TAPE], ports := started)
    case Some(t) =>
      if t < |s.tapes| then
        s.(tapes := s.tapes[t := s.tapes[t].(shouldStop := true)] + [NEW_TAPE],
           ports := started,
           stranded := if s.tapes[t].state == Stopped || t in s.deque || Held(s.worker, t) then s.stranded
                       else s.stranded + {t})
      else s
  }

  function StopNext(s: System, p: nat, t: nat): (r: System)
    requires p < |s.ports| && t < |s.tapes|
  {
    s.(tapes := s.tapes[t := s.tapes[t].(shouldStop := true)],
       ports := s.ports[p := s.ports[p].(capturing := false, pc := Pushing)])
  }

  function EnqueueNext(s: System, p: nat, t: nat, limits: Limits): (r: System)
    requires p < |s.ports| && t < |s.tapes| && s.ports[p].pc.Adding?
  {
    SetPc(s, p, Pushing).(tapes := s.tapes[t := s.tapes[t].(queue := Enqueue(s.tapes[t].queue, s.ports[p].pc.chunk, limits))])
  }

  function PushNext(s: System, p: nat, t: nat): (r: System)
    requires p < |s.ports| && t < |s.tapes|
  {
    var u := SetPc(s, p, Releasing);
    if s.tapes[t].isQueued then u
    else u.(tapes := s.tapes[t := s.tapes[t].(isQueued := true)], deque := s.deque + [t])
  }

  function PopNext(s: System): (r: System)
    requires s.deque != [] ==> s.deque[0] < |s.tapes|
  {
    if s.deque == [] then s.(worker := Waiting)
    else
      var t := s.deque[0];
      s.(tapes := s.tapes[t := s.tapes[t].(isQueued := false)], deque := s.deque[1..], worker := AtDrain(t))
  }

  function DrainNext(s: System, t: nat): (r: System)
    requires t < |s.tapes|
  {
    var tape := s.tapes[t];
    if !Draining(tape) || tape.queue.chunks == [] then s.(worker := AtStopCheck(t))
    else s.(tapes := s.tapes[t := tape.(queue := Dequeue(tape.queue))], worker := AtRecord(t, tape.queue.chunks[0]))
  }

  function HandOffNext(s: System, t: nat): (r: System)
    requires t < |s.tapes|
  {
    if s.tapes[t].ready
    then s.(tapes := s.tapes[t := s.tapes[t].(ready := false)], worker := Waiting, handedOff := s.handedOff + [t])
    else s.(worker := Waiting)
  }

  function Run(s: System, steps: seq<Step>, limits: Limits): (r: Option<System>)
    decreases |steps|
  {
    if steps == [] then Some(s)
    else
      match Next(s, steps[0], limits)
      case None => None
      case Some(next) => Run(next, steps[1..], limits)
  }

  // ---------------------------------------------------------------------------------------------
  // The invariant, one concern at a time

  /** A busy port has a tape, and no tape belongs to two ports. */
  ghost predicate Owned(s: System) {
    && (forall p | 0 <= p < |s.ports| && s.ports[p].tape.Some? :: s.ports[p].tape.value < |s.tapes|)
    && (forall p | 0 <= p < |s.ports| && !s.ports[p].pc.Idle? :: s.ports[p].tape.Some?)
    && (forall p, q | 0 <= p < q < |s.ports| && s.ports[p].tape.Some? :: s.ports[p].tape != s.ports[q].tape)
  }

  /** The deque and the writer name existing tapes. */
  ghost predicate Indexed(s: System) {
    && Owned(s)
    && (forall i | 0 <= i < |s.deque| :: s.deque[i] < |s.tapes|)
    && (!s.worker.Waiting? && !s.worker.Acquired? ==> s.worker.tape < |s.tapes|)
  }

  ghost predicate Distinct(xs: seq<nat>) { forall i, j | 0 <= i < j < |xs| :: xs[i] != xs[j] }

  /** A tape is in the deque at most once, and its flag says whether it is. */
  ghost predicate Flagged(s: System) {
    && Distinct(s.deque)
    && (forall t | 0 <= t < |s.tapes| :: s.tapes[t].isQueued <==> t in s.deque)
  }

  function Count(b: bool): nat { if b then 1 else 0 }

  /** Enough permits for what is in the deque. */
  ghost predicate Permitted(s: System) {
    |s.deque| <= s.permits + Count(s.worker.Acquired?) + Count(DequeLocked(s))
  }

  /** One port at most is inside Push. */
  ghost predicate Exclusive(s: System) {
    (forall p, q | 0 <= p < q < |s.ports| :: !(s.ports[p].pc.Releasing? && s.ports[q].pc.Releasing?))
  }

  /** The tape is on its way to the writer: in the deque, or its port has yet to push it. */
  ghost predicate OnTheWay(s: System, t: nat) {
    || t in s.deque
    || (exists p | 0 <= p < |s.ports| :: s.ports[p].tape == Some(t) && s.ports[p].pc.Pushing?)
  }

  /** No lost wake-up, for the chunks and for the stop of tape `t`. */
  ghost predicate AwaitedAt(s: System, t: nat)
    requires t < |s.tapes|
  {
    s.tapes[t].state != Stopped ==>
      && (s.tapes[t].queue.chunks != [] ==> OnTheWay(s, t) || MayTake(s.worker, t))
      && (s.tapes[t].shouldStop ==> OnTheWay(s, t) || Held(s.worker, t) || t in s.stranded)
  }

  ghost predicate Awaited(s: System) { forall t | 0 <= t < |s.tapes| :: AwaitedAt(s, t) }

  /** Tape `t` is out of reach for good, with its stop unseen. */
  ghost predicate OutOfReach(s: System, t: nat) {
    && t < |s.tapes|
    && s.tapes[t].shouldStop && s.tapes[t].state != Stopped
    && t !in s.deque && !Held(s.worker, t)
    && (forall p | 0 <= p < |s.ports| :: s.ports[p].tape != Some(t))
  }

  ghost predicate Abandoned(s: System) { forall t | t in s.stranded :: OutOfReach(s, t) }

  /** Chunks the writer is done with, for tape `t`. */
  ghost function Taken(s: System, t: nat): seq<Chunk>
    requires t < |s.tapes|
  {
    var popped := s.tapes[t].queue.popped;
    if s.worker.AtRecord? && s.worker.tape == t && popped != [] then popped[..|popped|-1] else popped
  }

  /** The counters and histories of tape `t` agree. */
  ghost predicate BookedAt(s: System, t: nat, limits: Limits)
    requires t < |s.tapes|
  {
    && Counted(s.tapes[t].queue, limits)
    && Recorded(s.tapes[t].file, Taken(s, t))
    && (s.worker.AtRecord? && s.worker.tape == t ==>
          && Draining(s.tapes[t])
          && s.tapes[t].queue.popped != []
          && s.tapes[t].queue.popped[|s.tapes[t].queue.popped|-1] == s.worker.chunk)
  }

  ghost predicate Booked(s: System, limits: Limits) { forall t | 0 <= t < |s.tapes| :: BookedAt(s, t, limits) }

  /** Tape `t` goes through its life in order, and is ready only until the writer's next step. It is
      handed off exactly when it stopped with bytes in its closed file and is no longer ready. */
  ghost predicate LivingAt(s: System, t: nat)
    requires t < |s.tapes|
  {
    && LifeCycle(s.tapes[t])
    && (s.tapes[t].ready ==> s.worker == AtHandOff(t))
    && (t in s.handedOff <==> s.tapes[t].file.closed && s.tapes[t].file.bytesWritten > 0 && !s.tapes[t].ready)
  }

  ghost predicate Living(s: System) { forall t | 0 <= t < |s.tapes| :: LivingAt(s, t) }

  /** No tape is handed off twice. */
  ghost predicate HandedOffOnce(s: System) {
    && (forall i | 0 <= i < |s.handedOff| :: s.handedOff[i] < |s.tapes|)
    && Distinct(s.handedOff)
  }

  /** A port that adds a chunk is capturing, and nobody has told a capturing port's tape to stop. */
  ghost predicate Capturing(s: System) {
    forall p | 0 <= p < |s.ports| :: CapturingAt(s, p)
  }

  ghost predicate CapturingAt(s: System, p: nat)
    requires p < |s.ports|
  {
    && (s.ports[p].pc.Adding? ==> s.ports[p].capturing)
    && (s.ports[p].capturing ==>
          && s.ports[p].tape.Some? && s.ports[p].tape.value < |s.tapes|
          && !s.tapes[s.ports[p].tape.value].shouldStop)
  }

  ghost predicate Inv(s: System, limits: Limits) {
    && Indexed(s) && Flagged(s) && Exclusive(s) && Permitted(s) && Awaited(s) && Abandoned(s) && Booked(s, limits)
    && Living(s) && HandedOffOnce(s) && Capturing(s)
  }

  lemma OwnedNext(s: System, step: Step, limits: Limits)
    requires Owned(s) && Next(s, step, limits).Some?
    ensures Owned(Next(s, step, limits).value)
  {
    hide Enqueue, Dequeue, Record, CheckStop, TakesChunks, Draining, DequeLocked, Held;
  }

  lemma IndexedNext(s: System, step: Step, limits: Limits)
    requires Indexed(s) && Next(s, step, limits).Some?
    ensures Indexed(Next(s, step, limits).value)
  {
    hide Enqueue, Dequeue, Record, CheckStop, TakesChunks, Draining, DequeLocked, Held, Owned;
    OwnedNext(s, step, limits);
  }

  lemma DistinctNext(s: System, step: Step, limits: Limits)
    requires Indexed(s) && Flagged(s) && Next(s, step, limits).Some?
    ensures Distinct(Next(s, step, limits).value.deque)
  {
    hide Enqueue, Dequeue, Record, CheckStop, TakesChunks, Draining, DequeLocked, Held, Owned;
  }

  lemma FlagNext(s: System, step: Step, limits: Limits, t: nat)
    requires Indexed(s) && Flagged(s) && Next(s, step, limits).Some? && t < |Next(s, step, limits).value.tapes|
    ensures var n := Next(s, step, limits).value; n.tapes[t].isQueued <==> t in n.deque
  {
    hide Enqueue, Dequeue, TakesChunks, Draining, DequeLocked, Held, Owned, Append;
    if step.PopTape? && s.deque != [] {
      assert s.deque == [s.deque[0]] + s.deque[1..];
    }
  }

  lemma FlaggedNext(s: System, step: Step, limits: Limits)
    requires Indexed(s) && Flagged(s) && Next(s, step, limits).Some?
    ensures Flagged(Next(s, step, limits).value)
  {
    hide Next, Indexed, Distinct;
    var n := Next(s, step, limits).value;
    DistinctNext(s, step, limits);
    forall t | 0 <= t < |n.tapes| ensures n.tapes[t].isQueued <==> t in n.deque {
      FlagNext(s, step, limits, t);
    }
  }

  lemma ExclusiveNext(s: System, step: Step, limits: Limits)
    requires Exclusive(s) && Next(s, step, limits).Some?
    ensures Exclusive(Next(s, step, limits).value)
  {
    hide Enqueue, Dequeue, Record, CheckStop, TakesChunks, Draining, Held;
  }

  lemma PermittedNext(s: System, step: Step, limits: Limits)
    requires Exclusive(s) && Permitted(s) && Next(s, step, limits).Some?
    ensures Permitted(Next(s, step, limits).value)
  {
    hide Enqueue, Dequeue, Record, CheckStop, TakesChunks, Draining, Held;
    var n := Next(s, step, limits).value;
    if step.PushTape? {
      assert n.ports[step.port].pc.Releasing?;
    } else if DequeLocked(s) && !step.ReleaseSemaphore? {
      var p :| 0 <= p < |s.ports| && s.ports[p].pc.Releasing?;
      assert n.ports[p].pc.Releasing?;
    }
  }

  lemma DequedNext(s: System, step: Step, limits: Limits, i: nat)
    requires Indexed(s) && Flagged(s) && Next(s, step, limits).Some? && i < |s.deque|
    ensures var n := Next(s, step, limits).value; s.deque[i] in n.deque || n.worker == AtDrain(s.deque[i])
  {
    hide Enqueue, Dequeue, Record, CheckStop, TakesChunks, Draining, Held, DequeLocked, Owned;
    var n := Next(s, step, limits).value;
    if step.PopTape? {
      assert i > 0 ==> n.deque[i-1] == s.deque[i];
    } else {
      assert n.deque[i] == s.deque[i];
    }
  }

  lemma PushingNext(s: System, step: Step, limits: Limits, p: nat)
    requires Indexed(s) && Flagged(s) && Next(s, step, limits).Some?
    requires p < |s.ports| && s.ports[p].tape.Some? && s.ports[p].pc.Pushing?
    ensures var n := Next(s, step, limits).value;
      s.ports[p].tape.value in n.deque || (p < |n.ports| && n.ports[p] == s.ports[p])
  {
    hide Enqueue, Dequeue, Record, CheckStop, TakesChunks, Draining, Held, DequeLocked, Owned;
    var n := Next(s, step, limits).value;
    if step == PushTape(p) {
      assert s.ports[p].tape.value in s.deque || n.deque[|n.deque|-1] == s.ports[p].tape.value;
    }
  }

  /** A tape on its way stays so until the writer takes it. */
  lemma OnTheWayNext(s: System, step: Step, limits: Limits, t: nat)
    requires Indexed(s) && Flagged(s) && Next(s, step, limits).Some?
    requires OnTheWay(s, t) && t < |s.tapes|
    ensures var n := Next(s, step, limits).value; OnTheWay(n, t) || n.worker == AtDrain(t)
  {
    hide Next, Indexed, Flagged;
    if t in s.deque {
      var i :| 0 <= i < |s.deque| && s.deque[i] == t;
      DequedNext(s, step, limits, i);
    } else {
      var p :| 0 <= p < |s.ports| && s.ports[p].tape == Some(t) && s.ports[p].pc.Pushing?;
      PushingNext(s, step, limits, p);
    }
  }

  lemma AwaitedNext(s: System, step: Step, limits: Limits, t: nat)
    requires Indexed(s) && Flagged(s) && Awaited(s) && Living(s) && Next(s, step, limits).Some?
    requires t < |Next(s, step, limits).value.tapes|
    ensures AwaitedAt(Next(s, step, limits).value, t)
  {
    hide Enqueue, Append, TakesChunks, DequeLocked;
    var n := Next(s, step, limits).value;
    match step {
      case StopCall(p) => assert n.ports[p].pc.Pushing?;
      case EnqueueChunk(p) => assert n.ports[p].pc.Pushing?;
      case _ =>
    }
    if t < |s.tapes| {
      assert AwaitedAt(s, t) && LivingAt(s, t);
      if OnTheWay(s, t) {
        OnTheWayNext(s, step, limits, t);
      }
    }
  }

  lemma AbandonedNext(s: System, step: Step, limits: Limits, t: nat)
    requires Indexed(s) && Abandoned(s) && Next(s, step, limits).Some?
    requires t in Next(s, step, limits).value.stranded
    ensures OutOfReach(Next(s, step, limits).value, t)
  {
    hide Enqueue, Dequeue, TakesChunks, DequeLocked, Append;
    assert t in s.stranded ==> OutOfReach(s, t);
  }

  lemma DequeueBooked(q: ChunkQueue, limits: Limits)
    requires Counted(q, limits) && q.chunks != []
    ensures var popped := Dequeue(q).popped;
      Counted(Dequeue(q), limits) && popped[..|popped|-1] == q.popped && popped[|popped|-1] == q.chunks[0]
  {
    DequeueCounted(q, limits);
  }

  lemma RecordBooked(t: Tape, taken: seq<Chunk>, c: Chunk, limits: Limits, fails: bool)
    requires Recorded(t.file, taken) && Draining(t) && t.queue.popped != []
    requires t.queue.popped[..|t.queue.popped|-1] == taken && t.queue.popped[|t.queue.popped|-1] == c
    ensures Recorded(Record(t, c, limits, fails).file, t.queue.popped)
  {
    assert taken + [c] == t.queue.popped;
    AppendRecorded(t.file, taken, c, limits, fails);
    AppendRecorded(t.file.(onDisk := true), taken, c, limits, fails);
  }

  /** The step changes the queue, the file history or the writer's chunk of tape `t`. */
  predicate Touches(s: System, step: Step, t: nat) {
    match step
    case EnqueueChunk(p) => p < |s.ports| && s.ports[p].tape == Some(t)
    case DrainStep => s.worker == AtDrain(t)
    case RecordStep(_) => s.worker.AtRecord? && s.worker.tape == t
    case _ => false
  }

  lemma UntouchedBooked(s: System, step: Step, limits: Limits, t: nat)
    requires Indexed(s) && Next(s, step, limits).Some?
    requires t < |s.tapes| && BookedAt(s, t, limits) && !Touches(s, step, t)
    ensures BookedAt(Next(s, step, limits).value, t, limits)
  {
    hide TakesChunks, DequeLocked, Counted, Held, Subsequence;
    var n := Next(s, step, limits).value;
    assert n.tapes[t].queue == s.tapes[t].queue && n.tapes[t].file.(closed := false) == s.tapes[t].file.(closed := false);
    assert Taken(n, t) == Taken(s, t);
  }

  lemma EnqueueBooked(s: System, p: nat, limits: Limits, t: nat)
    requires Indexed(s) && Next(s, EnqueueChunk(p), limits).Some?
    requires t < |s.tapes| && BookedAt(s, t, limits) && s.ports[p].tape == Some(t)
    ensures BookedAt(Next(s, EnqueueChunk(p), limits).value, t, limits)
  {
    hide TakesChunks, DequeLocked, Counted, Recorded, Held, Owned, Enqueue;
    EnqueueCounted(s.tapes[t].queue, s.ports[p].pc.chunk, limits);
  }

  lemma DrainBooked(s: System, limits: Limits, t: nat)
    requires t < |s.tapes| && BookedAt(s, t, limits) && s.worker == AtDrain(t)
    ensures BookedAt(DrainNext(s, t), t, limits)
  {
    hide TakesChunks, DequeLocked, Counted, Recorded, Held, Owned;
    if s.tapes[t].queue.chunks != [] {
      DequeueBooked(s.tapes[t].queue, limits);
    }
  }

  lemma WriteBooked(s: System, fails: bool, limits: Limits, t: nat)
    requires Next(s, RecordStep(fails), limits).Some?
    requires t < |s.tapes| && BookedAt(s, t, limits) && s.worker.AtRecord? && s.worker.tape == t
    ensures BookedAt(Next(s, RecordStep(fails), limits).value, t, limits)
  {
    hide TakesChunks, DequeLocked, Counted, Recorded, Held, Append, Owned;
    RecordBooked(s.tapes[t], Taken(s, t), s.worker.chunk, limits, fails);
  }

  lemma TouchedBooked(s: System, step: Step, limits: Limits, t: nat)
    requires Indexed(s) && Next(s, step, limits).Some?
    requires t < |s.tapes| && BookedAt(s, t, limits) && Touches(s, step, t)
    ensures BookedAt(Next(s, step, limits).value, t, limits)
  {
    hide Indexed, BookedAt, TakesChunks, DequeLocked, Enqueue, Record, DrainNext, EnqueueNext;
    match step
    case EnqueueChunk(p) => EnqueueBooked(s, p, limits, t);
    case DrainStep => DrainBooked(s, limits, t);
    case RecordStep(fails) => WriteBooked(s, fails, limits, t);
    case _ =>
  }

  lemma BookedNext(s: System, step: Step, limits: Limits, t: nat)
    requires Indexed(s) && Booked(s, limits) && Next(s, step, limits).Some?
    requires t < |Next(s, step, limits).value.tapes|
    ensures BookedAt(Next(s, step, limits).value, t, limits)
  {
    if t < |s.tapes| {
      assert BookedAt(s, t, limits);
      if Touches(s, step, t) {
        TouchedBooked(s, step, limits, t);
      } else {
        UntouchedBooked(s, step, limits, t);
      }
    }
  }

  /** The steps that move a tape along in its life. */
  predicate MovesOn(step: Step) { step.RecordStep? || step.StopCheckStep? || step.HandOffStep? }

  lemma StayingLiving(s: System, step: Step, limits: Limits, t: nat)
    requires Indexed(s) && HandedOffOnce(s) && Next(s, step, limits).Some? && !MovesOn(step)
    requires t < |Next(s, step, limits).value.tapes| && (t < |s.tapes| ==> LivingAt(s, t))
    ensures LivingAt(Next(s, step, limits).value, t)
  {
    hide Enqueue, Dequeue, Record, CheckStop, Append, TakesChunks, DequeLocked, Held, Owned;
  }

  lemma MovingLiving(s: System, step: Step, limits: Limits, t: nat)
    requires Indexed(s) && HandedOffOnce(s) && Next(s, step, limits).Some? && MovesOn(step)
    requires t < |s.tapes| && BookedAt(s, t, limits) && LivingAt(s, t)
    ensures LivingAt(Next(s, step, limits).value, t)
  {
    hide Enqueue, Dequeue, TakesChunks, DequeLocked, Counted, Recorded, Held, Owned;
  }

  lemma LivingNext(s: System, step: Step, limits: Limits, t: nat)
    requires Indexed(s) && Booked(s, limits) && Living(s) && HandedOffOnce(s) && Next(s, step, limits).Some?
    requires t < |Next(s, step, limits).value.tapes|
    ensures LivingAt(Next(s, step, limits).value, t)
  {
    hide Record, CheckStop, LivingAt, BookedAt, Enqueue, Dequeue, TakesChunks, DequeLocked, Held, Owned;
    if MovesOn(step) {
      assert BookedAt(s, t, limits) && LivingAt(s, t);
      MovingLiving(s, step, limits, t);
    } else {
      assert t < |s.tapes| ==> LivingAt(s, t);
      StayingLiving(s, step, limits, t);
    }
  }

  lemma HandedOffOnceNext(s: System, step: Step, limits: Limits)
    requires Indexed(s) && Living(s) && HandedOffOnce(s) && Next(s, step, limits).Some?
    ensures HandedOffOnce(Next(s, step, limits).value)
  {
    hide Enqueue, Dequeue, Record, CheckStop, TakesChunks, DequeLocked, Held, Owned, Draining;
    if step.HandOffStep? {
      assert LivingAt(s, s.worker.tape);
    }
  }

  /** Only a port's own calls tell its tape to stop, and they end the capture or replace the tape. */
  lemma CapturingNext(s: System, step: Step, limits: Limits, p: nat)
    requires Indexed(s) && Capturing(s) && Next(s, step, limits).Some? && p < |Next(s, step, limits).value.ports|
    ensures CapturingAt(Next(s, step, limits).value, p)
  {
    hide Enqueue, Dequeue, TakesChunks, DequeLocked, Held, Append;
    assert CapturingAt(s, p);
  }

  // ---------------------------------------------------------------------------------------------
  // Every run

  lemma InvNext(s: System, step: Step, limits: Limits)
    requires Inv(s, limits) && Next(s, step, limits).Some?
    ensures Inv(Next(s, step, limits).value, limits)
  {
    var n := Next(s, step, limits).value;
    IndexedNext(s, step, limits);
    FlaggedNext(s, step, limits);
    ExclusiveNext(s, step, limits);
    PermittedNext(s, step, limits);
    HandedOffOnceNext(s, step, limits);
    forall t | 0 <= t < |n.tapes| ensures AwaitedAt(n, t) && BookedAt(n, t, limits) && LivingAt(n, t) {
      AwaitedNext(s, step, limits, t);
      BookedNext(s, step, limits, t);
      LivingNext(s, step, limits, t);
    }
    forall t | t in n.stranded ensures OutOfReach(n, t) {
      AbandonedNext(s, step, limits, t);
    }
    forall p | 0 <= p < |n.ports| ensures CapturingAt(n, p) {
      CapturingNext(s, step, limits, p);
    }
  }

  lemma {:induction false} InvRun(s: System, steps: seq<Step>, limits: Limits)
    requires Inv(s, limits) && Run(s, steps, limits).Some?
    ensures Inv(Run(s, steps, limits).value, limits)
    decreases |steps|
  {
    if steps == [] {
    } else {
      InvNext(s, steps[0], limits);
      InvRun(Next(s, steps[0], limits).value, steps[1..], limits);
    }
  }

  lemma {:induction false} RunAppend(s: System, steps: seq<Step>, step: Step, limits: Limits)
    requires Run(s, steps, limits).Some?
    ensures Run(s, steps + [step], limits) == Next(Run(s, steps, limits).value, step, limits)
    decreases |steps|
  {
    if steps == [] {
      assert steps + [step] == [step];
      assert [step][1..] == [];
    } else {
      assert (steps + [step])[1..] == steps[1..] + [step];
      RunAppend(Next(s, steps[0], limits).value, steps[1..], step, limits);
    }
  }

  ghost predicate Reachable(s: System, ports: nat, limits: Limits) {
    exists steps :: Run(Init(ports), steps, limits) == Some(s)
  }

  lemma ReachableNext(s: System, step: Step, ports: nat, limits: Limits)
    requires Reachable(s, ports, limits) && Next(s, step, limits).Some?
    ensures Reachable(Next(s, step, limits).value, ports, limits)
  {
    var steps :| Run(Init(ports), steps, limits) == Some(s);
    RunAppend(Init(ports), steps, step, limits);
  }

  lemma InvReachable(s: System, ports: nat, limits: Limits)
    requires Reachable(s, ports, limits)
    ensures Inv(s, limits)
  {
    var steps :| Run(Init(ports), steps, limits) == Some(s);
    InvRun(Init(ports), steps, limits);
  }

  /** No lost wake-up. A tape that is not stopped and has queued chunks is in the deque, or its port
      has yet to push it, or the writer has yet to look at its queue again. The same holds of a stop
      the writer has not seen, unless the tape is stranded. A deque with tapes in it means a permit
      is there, or coming, or the writer is already past the semaphore. */
  lemma NoLostWakeUp(s: System, ports: nat, limits: Limits, t: nat)
    requires Reachable(s, ports, limits) && t < |s.tapes|
    ensures s.tapes[t].state != Stopped && s.tapes[t].queue.chunks != [] ==> OnTheWay(s, t) || MayTake(s.worker, t)
    ensures s.tapes[t].state != Stopped && s.tapes[t].shouldStop ==>
      OnTheWay(s, t) || Held(s.worker, t) || t in s.stranded
    ensures s.deque != [] ==> s.permits > 0 || s.worker.Acquired? || DequeLocked(s)
    ensures multiset(s.deque)[t] == if s.tapes[t].isQueued then 1 else 0
  {
    InvReachable(s, ports, limits);
    assert AwaitedAt(s, t);
    CountOfDistinct(s.deque, t);
  }

  lemma {:induction false} CountOfDistinct(xs: seq<nat>, x: nat)
    requires Distinct(xs)
    ensures multiset(xs)[x] == if x in xs then 1 else 0
  {
    if xs == [] {
    } else {
      assert xs == [xs[0]] + xs[1..];
      CountOfDistinct(xs[1..], x);
    }
  }

  /** The books of every tape in every reachable state. */
  lemma TapesAreAccountedFor(s: System, ports: nat, limits: Limits, t: nat)
    requires Reachable(s, ports, limits) && t < |s.tapes|
    ensures var q := s.tapes[t].queue;
      && q.pushCount - q.popCount == |q.chunks|
      && q.dataSize == SumBytes(q.chunks)
      && (q.chunks != [] ==> q.dataSize < limits.QueueLimit() + q.chunks[|q.chunks|-1].numBytes)
      && q.accepted == q.popped + q.chunks
      && Subsequence(s.tapes[t].file.written, q.popped)
      && s.tapes[t].file.bytesWritten == SumBytes(s.tapes[t].file.written)
    ensures s.tapes[t].state != Error
    ensures s.tapes[t].ready ==> s.tapes[t].file.closed && s.tapes[t].file.bytesWritten > 0
    ensures multiset(s.handedOff)[t] <= 1
    ensures t in s.handedOff ==> s.tapes[t].file.closed && s.tapes[t].file.bytesWritten > 0
  {
    InvReachable(s, ports, limits);
    assert BookedAt(s, t, limits) && LivingAt(s, t);
    CountOfDistinct(s.handedOff, t);
    var popped := s.tapes[t].queue.popped;
    if Taken(s, t) != popped {
      SubsequenceSkip(s.tapes[t].file.written, Taken(s, t), popped[|popped|-1]);
      assert popped == Taken(s, t) + [popped[|popped|-1]];
    }
  }

  /** A chunk that a port puts into its tape is accepted if and only if less than three batches of bytes
      are queued there; nothing else of the queue changes then but the counters. */
  lemma ChunkIsAcceptedIff(s: System, ports: nat, limits: Limits, p: nat)
    requires Reachable(s, ports, limits) && Next(s, EnqueueChunk(p), limits).Some?
    ensures var t, c := s.ports[p].tape.value, s.ports[p].pc.chunk;
            var (before, after) := (s.tapes[t].queue, Next(s, EnqueueChunk(p), limits).value.tapes[t].queue);
            var room := SumBytes(before.chunks) < 3 * 1024 * limits.batchKByte;
      && (after.accepted == before.accepted + [c] <==> room)
      && after.chunks == (if room then before.chunks + [c] else before.chunks)
      && after.rejectedCount == before.rejectedCount + (if room then 0 else 1)
  {
    var t, c := s.ports[p].tape.value, s.ports[p].pc.chunk;
    TapesAreAccountedFor(s, ports, limits, t);
    EnqueueTakesIff(s.tapes[t].queue, c, limits);
    hide Enqueue, Reachable;
  }

  /** States only move forward, the past of a tape is kept, and a hand-off is never undone. */
  lemma StatesMoveForward(s: System, step: Step, limits: Limits, t: nat)
    requires Inv(s, limits) && Next(s, step, limits).Some? && t < |s.tapes|
    ensures var n := Next(s, step, limits).value;
      && t < |n.tapes|
      && (n.tapes[t].state != s.tapes[t].state ==>
            (s.tapes[t].state == Created && n.tapes[t].state == Active) || n.tapes[t].state == Stopped)
      && (s.tapes[t].shouldStop ==> n.tapes[t].shouldStop)
      && s.tapes[t].queue.popped <= n.tapes[t].queue.popped
      && s.tapes[t].file.written <= n.tapes[t].file.written
      && s.handedOff <= n.handedOff && s.stranded <= n.stranded
  {
    hide DequeLocked, TakesChunks, Held, Indexed, Flagged, Exclusive, Permitted, Awaited, Abandoned, Booked;
    assert LivingAt(s, t);
  }

  // ---------------------------------------------------------------------------------------------
  // Settling down

  /** Nothing is left to do until something comes from outside. */
  predicate Quiet(s: System) {
    s.worker.Waiting? && s.permits == 0 && forall p | 0 <= p < |s.ports| :: s.ports[p].pc.Idle?
  }

  function PortWork(pc: PortPc): nat {
    match pc case Idle => 0 case Adding(_) => 10 case Pushing => 7 case Releasing => 6
  }

  function WorkerWork(w: Worker): nat {
    match w
    case Waiting => 0
    case AtHandOff(_) => 1
    case AtStopCheck(_) => 2
    case AtDrain(_) => 3
    case AtRecord(_, _) => 4
    case Acquired => 4
  }

  function PortsWork(ports: seq<Port>): nat {
    if ports == [] then 0 else PortWork(ports[0].pc) + PortsWork(ports[1..])
  }

  function QueuedChunks(tapes: seq<Tape>): nat {
    if tapes == [] then 0 else |tapes[0].queue.chunks| + QueuedChunks(tapes[1..])
  }

  /** A bound on the steps left before the system is quiet. */
  function Work(s: System): nat {
    WorkerWork(s.worker) + 5 * s.permits + PortsWork(s.ports) + 2 * QueuedChunks(s.tapes)
  }

  lemma {:induction false} PortsWorkUpdate(ports: seq<Port>, p: nat, port: Port)
    requires p < |ports|
    ensures PortsWork(ports[p := port]) == PortsWork(ports) - PortWork(ports[p].pc) + PortWork(port.pc)
  {
    if p == 0 {
      assert ports[p := port][1..] == ports[1..];
    } else {
      assert ports[p := port][1..] == ports[1..][p-1 := port];
      PortsWorkUpdate(ports[1..], p - 1, port);
    }
  }

  lemma {:induction false} QueuedChunksUpdate(tapes: seq<Tape>, t: nat, tape: Tape)
    requires t < |tapes|
    ensures QueuedChunks(tapes[t := tape]) == QueuedChunks(tapes) - |tapes[t].queue.chunks| + |tape.queue.chunks|
  {
    if t == 0 {
      assert tapes[t := tape][1..] == tapes[1..];
    } else {
      assert tapes[t := tape][1..] == tapes[1..][t-1 := tape];
      QueuedChunksUpdate(tapes[1..], t - 1, tape);
    }
  }

  lemma PortWorkShrinks(s: System, step: Step, limits: Limits)
    requires (step.EnqueueChunk? || step.PushTape? || step.ReleaseSemaphore?) && Next(s, step, limits).Some?
    ensures Work(Next(s, step, limits).value) < Work(s)
  {
    hide DequeLocked, TakesChunks;
    var n := Next(s, step, limits).value;
    PortsWorkUpdate(s.ports, step.port, n.ports[step.port]);
    if !step.ReleaseSemaphore? {
      var t := s.ports[step.port].tape.value;
      QueuedChunksUpdate(s.tapes, t, n.tapes[t]);
    }
  }

  lemma WorkerWorkShrinks(s: System, step: Step, limits: Limits)
    requires step.DrainStep? || step.RecordStep? || step.StopCheckStep? || step.HandOffStep?
    requires Next(s, step, limits).Some?
    ensures Work(Next(s, step, limits).value) < Work(s)
  {
    hide Append, DequeLocked, TakesChunks;
    QueuedChunksUpdate(s.tapes, s.worker.tape, Next(s, step, limits).value.tapes[s.worker.tape]);
  }

  /** Every step from inside leaves less to do. */
  lemma WorkShrinks(s: System, step: Step, limits: Limits)
    requires !FromOutside(step) && Next(s, step, limits).Some?
    ensures Work(Next(s, step, limits).value) < Work(s)
  {
    if step.EnqueueChunk? || step.PushTape? || step.ReleaseSemaphore? {
      PortWorkShrinks(s, step, limits);
    } else if step.PopTape? {
      if s.deque != [] {
        QueuedChunksUpdate(s.tapes, s.deque[0], Next(s, step, limits).value.tapes[s.deque[0]]);
      }
    } else if !step.AcquireSemaphore? {
      WorkerWorkShrinks(s, step, limits);
    }
  }

  /** A step from inside is possible as long as there is something to do. */
  lemma StepIsPossible(s: System, limits: Limits) returns (step: Step)
    requires Inv(s, limits) && !Quiet(s)
    ensures !FromOutside(step) && Next(s, step, limits).Some?
  {
    if DequeLocked(s) {
      var p :| 0 <= p < |s.ports| && s.ports[p].pc.Releasing?;
      return ReleaseSemaphore(p);
    }
    match s.worker {
      case Acquired => return PopTape;
      case AtDrain(_) => return DrainStep;
      case AtRecord(_, _) => return RecordStep(false);
      case AtStopCheck(_) => return StopCheckStep;
      case AtHandOff(_) => return HandOffStep;
      case Waiting =>
        if s.permits > 0 { return AcquireSemaphore; }
        var p :| 0 <= p < |s.ports| && !s.ports[p].pc.Idle?;
        if s.ports[p].pc.Adding? { return EnqueueChunk(p); }
        return PushTape(p);
    }
  }

  /** Without new calls, chunks or stops the system goes quiet, whatever the order of the steps:
      a run of inside steps is never longer than the work at its start, and one that reaches a quiet
      state exists. */
  lemma {:induction false} SettlesDown(s: System, limits: Limits) returns (steps: seq<Step>)
    requires Inv(s, limits)
    ensures forall i | 0 <= i < |steps| :: !FromOutside(steps[i])
    ensures Run(s, steps, limits).Some? && Quiet(Run(s, steps, limits).value)
    decreases Work(s)
  {
    if Quiet(s) {
      return [];
    }
    var step := StepIsPossible(s, limits);
    InvNext(s, step, limits);
    WorkShrinks(s, step, limits);
    var rest := SettlesDown(Next(s, step, limits).value, limits);
    steps := [step] + rest;
  }

  lemma {:induction false} RunsFromInsideAreShort(s: System, steps: seq<Step>, limits: Limits)
    requires forall i | 0 <= i < |steps| :: !FromOutside(steps[i])
    requires Run(s, steps, limits).Some?
    ensures |steps| + Work(Run(s, steps, limits).value) <= Work(s)
    decreases |steps|
  {
    if steps == [] {
    } else {
      WorkShrinks(s, steps[0], limits);
      RunsFromInsideAreShort(Next(s, steps[0], limits).value, steps[1..], limits);
    }
  }

  /** The tape did not stop with chunks in its queue. */
  predicate LeftNothing(t: Tape) { t.state == Stopped ==> t.queue.chunks == [] }

  /** Once quiet, every tape told to stop has stopped, except the stranded ones; what was accepted
      by a tape has all been dealt with exactly when it did not stop with chunks in its queue; and exactly
      the stopped tapes with bytes in their file were handed off. */
  lemma QuietMeansDone(s: System, ports: nat, limits: Limits, t: nat)
    requires Reachable(s, ports, limits) && Quiet(s) && t < |s.tapes|
    ensures s.deque == []
    ensures s.tapes[t].shouldStop ==> (s.tapes[t].state == Stopped <==> t !in s.stranded)
    ensures s.tapes[t].queue.popped == s.tapes[t].queue.accepted <==> LeftNothing(s.tapes[t])
    ensures t in s.handedOff <==> s.tapes[t].state == Stopped && s.tapes[t].file.bytesWritten > 0
  {
    InvReachable(s, ports, limits);
    assert AwaitedAt(s, t) && LivingAt(s, t) && BookedAt(s, t, limits);
    assert t in s.stranded ==> OutOfReach(s, t);
  }

  /** A stranded tape is never stopped nor handed off, whatever happens later. */
  lemma StrandedForEver(s: System, steps: seq<Step>, limits: Limits, t: nat)
    requires Inv(s, limits) && t in s.stranded && Run(s, steps, limits).Some?
    ensures var r := Run(s, steps, limits).value;
      t < |r.tapes| && r.tapes[t].shouldStop && r.tapes[t].state != Stopped && t !in r.handedOff
  {
    InvRun(s, steps, limits);
    StrandedStays(s, steps, limits, t);
    var r := Run(s, steps, limits).value;
    assert OutOfReach(r, t) && LivingAt(r, t);
  }

  lemma {:induction false} StrandedStays(s: System, steps: seq<Step>, limits: Limits, t: nat)
    requires t in s.stranded && Run(s, steps, limits).Some?
    ensures t in Run(s, steps, limits).value.stranded
    decreases |steps|
  {
    if steps == [] {
    } else {
      StrandedStays(Next(s, steps[0], limits).value, steps[1..], limits, t);
    }
  }

  // ---------------------------------------------------------------------------------------------
  // What the protocol does not prevent

  lemma InitReachable(ports: nat, limits: Limits)
    ensures Reachable(Init(ports), ports, limits)
  {
    assert Run(Init(ports), [], limits) == Some(Init(ports));
  }

  lemma Take(s: System, step: Step, limits: Limits) returns (n: System)
    requires Reachable(s, 1, limits) && Next(s, step, limits).Some?
    ensures n == Next(s, step, limits).value && Reachable(n, 1, limits)
  {
    n := Next(s, step, limits).value;
    ReachableNext(s, step, 1, limits);
  }

  /** One call, and its first chunk queued and announced. */
  lemma FirstChunkQueued(limits: Limits) returns (s: System)
    requires limits.batchKByte > 0
    ensures Reachable(s, 1, limits) && s.deque == [0] && s.stranded == {} && s.permits == 1 && s.worker.Waiting?
    ensures s.ports == [Port(Some(0), true, Idle)]
    ensures s.tapes == [NEW_TAPE.(isQueued := true, queue := Enqueue(NEW_TAPE.queue, Chunk(1, 160), limits))]
  {
    hide Reachable;
    InitReachable(1, limits);
    var s0 := Init(1);
    s := Take(s0, StartCall(0), limits);
    s := Take(s, OfferChunk(0, Chunk(1, 160)), limits);
    s := Take(s, EnqueueChunk(0), limits);
    s := Take(s, PushTape(0), limits);
    assert s.ports[0].pc.Releasing?;
    s := Take(s, ReleaseSemaphore(0), limits);
  }

  /** The writer has written it and is about to look at the queue it has emptied. */
  lemma FirstChunkWritten(limits: Limits) returns (s: System)
    requires limits.batchKByte > 0
    ensures Reachable(s, 1, limits) && |s.tapes| == 1 && s.deque == [] && s.stranded == {} && s.permits == 0
    ensures s.ports == [Port(Some(0), true, Idle)] && s.worker == AtDrain(0)
    ensures var t := s.tapes[0];
      t.state == Active && t.file.bytesWritten == 160 && !t.shouldStop && !t.isQueued && !t.ready
      && t.queue.chunks == [] && t.queue.dataSize == 0
  {
    hide Reachable;
    s := FirstChunkQueued(limits);
    s := Take(s, AcquireSemaphore, limits);
    s := Take(s, PopTape, limits);
    s := Take(s, DrainStep, limits);
    s := Take(s, RecordStep(false), limits);
  }

  /** A new call on a port whose previous tape was drained but never stopped strands that tape: its
      recording stays open for ever. */
  lemma RecordingNeverClosed(limits: Limits) returns (s: System)
    requires limits.batchKByte > 0
    ensures Reachable(s, 1, limits) && Quiet(s) && |s.tapes| > 0 && 0 in s.stranded
    ensures s.tapes[0].shouldStop && s.tapes[0].file.bytesWritten > 0 && s.tapes[0].state == Active
  {
    hide Reachable;
    s := FirstChunkWritten(limits);
    s := Take(s, DrainStep, limits);
    s := Take(s, StopCheckStep, limits);
    s := Take(s, HandOffStep, limits);
    s := Take(s, StartCall(0), limits);
  }

  /** A chunk accepted after the writer last looked at the queue is left behind when the writer sees
      the stop before it looks again. */
  lemma LateChunkIsLost(limits: Limits) returns (s: System)
    requires limits.batchKByte > 0
    ensures Reachable(s, 1, limits) && |s.tapes| == 1
    ensures s.tapes[0].state == Stopped && s.tapes[0].queue.chunks == [Chunk(2, 160)]
  {
    hide Reachable;
    s := FirstChunkWritten(limits);
    s := Take(s, OfferChunk(0, Chunk(2, 160)), limits);
    s := Take(s, DrainStep, limits);
    s := Take(s, EnqueueChunk(0), limits);
    s := Take(s, PushTape(0), limits);
    s := Take(s, ReleaseSemaphore(0), limits);
    s := Take(s, StopCall(0), limits);
    s := Take(s, StopCheckStep, limits);
  }

  lemma StoppedNext(s: System, step: Step, limits: Limits, t: nat)
    requires Inv(s, limits) && Next(s, step, limits).Some? && t < |s.tapes| && s.tapes[t].state == Stopped
    ensures var n := Next(s, step, limits).value;
      && t < |n.tapes| && n.tapes[t].state == Stopped
      && n.tapes[t].queue.popped == s.tapes[t].queue.popped
      && s.tapes[t].queue.chunks <= n.tapes[t].queue.chunks
  {
    assert BookedAt(s, t, limits);
  }

  /** A stopped tape is final: a chunk still queued when it stopped never leaves. */
  lemma {:induction false} StoppedIsFinal(s: System, steps: seq<Step>, limits: Limits, t: nat)
    requires Inv(s, limits) && Run(s, steps, limits).Some? && t < |s.tapes| && s.tapes[t].state == Stopped
    ensures var r := Run(s, steps, limits).value;
      && t < |r.tapes| && r.tapes[t].state == Stopped
      && r.tapes[t].queue.popped == s.tapes[t].queue.popped
      && s.tapes[t].queue.chunks <= r.tapes[t].queue.chunks
    decreases |steps|
  {
    if steps == [] {
    } else {
      InvNext(s, steps[0], limits);
      StoppedNext(s, steps[0], limits, t);
      StoppedIsFinal(Next(s, steps[0], limits).value, steps[1..], limits, t);
    }
  }

  // ---------------------------------------------------------------------------------------------
  // When every accepted chunk is dealt with

  predicate NoneLeft(s: System) { forall t | 0 <= t < |s.tapes| :: LeftNothing(s.tapes[t]) }

  /** So the tape of a capturing port is open: its next chunk is taken, unless the queue is too long. */
  lemma CapturingTapeIsOpen(s: System, limits: Limits, p: nat)
    requires Inv(s, limits) && p < |s.ports| && s.ports[p].capturing
    ensures s.ports[p].tape.Some? && s.ports[p].tape.value < |s.tapes| && TakesChunks(s.tapes[s.ports[p].tape.value])
  {
    assert CapturingAt(s, p) && LivingAt(s, s.ports[p].tape.value);
  }

  /** The step that leaves chunks behind: the writer sees the stop while chunks came in after its last
      look at the queue. */
  predicate MissesChunk(s: System, step: Step) {
    && step.StopCheckStep? && s.worker.AtStopCheck? && s.worker.tape < |s.tapes|
    && var t := s.tapes[s.worker.tape]; t.shouldStop && t.state != Stopped && t.queue.chunks != []
  }

  predicate SomeMiss(s: System, steps: seq<Step>, limits: Limits)
    decreases |steps|
  {
    steps != [] && (MissesChunk(s, steps[0])
      || (Next(s, steps[0], limits).Some? && SomeMiss(Next(s, steps[0], limits).value, steps[1..], limits)))
  }

  /** Any other step leaves every tape so. */
  lemma KeepsLeftNothing(s: System, step: Step, limits: Limits, t: nat)
    requires Inv(s, limits) && NoneLeft(s) && Next(s, step, limits).Some? && !MissesChunk(s, step)
    requires t < |Next(s, step, limits).value.tapes|
    ensures LeftNothing(Next(s, step, limits).value.tapes[t])
  {
    hide DequeLocked, TakesChunks, Held, Owned, Flagged, Exclusive, Permitted, Awaited, Abandoned, HandedOffOnce, Append;
    if step.EnqueueChunk? {
      assert CapturingAt(s, step.port);
    }
    if t < |s.tapes| {
      assert LeftNothing(s.tapes[t]) && BookedAt(s, t, limits) && LivingAt(s, t);
    }
  }

  lemma MissLeavesChunk(s: System, step: Step, limits: Limits) returns (t: nat)
    requires Inv(s, limits) && Next(s, step, limits).Some? && MissesChunk(s, step)
    ensures var n := Next(s, step, limits).value;
      t < |n.tapes| && n.tapes[t].state == Stopped && n.tapes[t].queue.chunks != []
  {
    hide DequeLocked, TakesChunks, Held, Owned, Flagged, Exclusive, Permitted, Awaited, Abandoned, HandedOffOnce, Booked, Capturing;
    t := s.worker.tape;
  }

  /** A step leaves nothing behind if and only if it is not that one. */
  lemma LeavesNothingIff(s: System, step: Step, limits: Limits)
    requires Inv(s, limits) && NoneLeft(s) && Next(s, step, limits).Some?
    ensures NoneLeft(Next(s, step, limits).value) <==> !MissesChunk(s, step)
  {
    hide Inv, MissesChunk, Next;
    var n := Next(s, step, limits).value;
    if MissesChunk(s, step) {
      var t := MissLeavesChunk(s, step, limits);
      assert !LeftNothing(n.tapes[t]);
    } else {
      forall t | 0 <= t < |n.tapes| ensures LeftNothing(n.tapes[t]) {
        KeepsLeftNothing(s, step, limits, t);
      }
    }
  }

  /** Nor by a run, if and only if none of its steps is. */
  lemma {:induction false} RunLeavesNothingIff(s: System, steps: seq<Step>, limits: Limits)
    requires Inv(s, limits) && NoneLeft(s) && Run(s, steps, limits).Some?
    ensures NoneLeft(Run(s, steps, limits).value) <==> !SomeMiss(s, steps, limits)
    decreases |steps|
  {
    hide Inv, MissesChunk, Next;
    if steps == [] {
    } else {
      var n := Next(s, steps[0], limits).value;
      InvNext(s, steps[0], limits);
      LeavesNothingIff(s, steps[0], limits);
      if MissesChunk(s, steps[0]) {
        var t := MissLeavesChunk(s, steps[0], limits);
        StoppedIsFinal(n, steps[1..], limits, t);
        var left := Run(s, steps, limits).value.tapes[t];
        assert left.queue.chunks[0] == n.tapes[t].queue.chunks[0];
        assert !LeftNothing(left);
      } else {
        RunLeavesNothingIff(n, steps[1..], limits);
      }
    }
  }

  /** In a run that ends quiet, every chunk any tape ever accepted has been dealt with if and only if
      no step of the run was that one. */
  lemma EveryChunkIsTakenIff(ports: nat, steps: seq<Step>, limits: Limits)
    requires Run(Init(ports), steps, limits).Some? && Quiet(Run(Init(ports), steps, limits).value)
    ensures var s := Run(Init(ports), steps, limits).value;
      (forall t | 0 <= t < |s.tapes| :: s.tapes[t].queue.popped == s.tapes[t].queue.accepted)
      <==> !SomeMiss(Init(ports), steps, limits)
  {
    hide Inv, SomeMiss, Run, Quiet, Reachable;
    var s := Run(Init(ports), steps, limits).value;
    InitReachable(ports, limits);
    InvReachable(Init(ports), ports, limits);
    RunReaches(ports, steps, limits);
    RunLeavesNothingIff(Init(ports), steps, limits);
    forall t | 0 <= t < |s.tapes|
      ensures s.tapes[t].queue.popped == s.tapes[t].queue.accepted <==> LeftNothing(s.tapes[t])
    {
      QuietMeansDone(s, ports, limits, t);
    }
  }

  lemma RunReaches(ports: nat, steps: seq<Step>, limits: Limits)
    requires Run(Init(ports), steps, limits).Some?
    ensures Reachable(Run(Init(ports), steps, limits).value, ports, limits)
  {}

  // ---------------------------------------------------------------------------------------------
  // The writer's turn, undisturbed

  /** The steps from the moment a tape was popped until the writer is back at the semaphore. */
  function WriterSteps(tape: Tape, limits: Limits, fails: nat -> bool): (r: seq<Step>)
    decreases |tape.queue.chunks|
  {
    if !Draining(tape) || tape.queue.chunks == [] then [DrainStep, StopCheckStep, HandOffStep]
    else
      var failed := fails(tape.queue.popCount);
      var taken := tape.(queue := Dequeue(tape.queue));
      [DrainStep, RecordStep(failed)] + WriterSteps(Record(taken, tape.queue.chunks[0], limits, failed), limits, fails)
  }

  /** The system after a turn that left tape `t` as `tape`. */
  function AfterTurn(s: System, t: nat, tape: Tape): (r: System)
    requires t < |s.tapes|
  {
    s.(tapes := s.tapes[t := tape.(ready := false)], worker := Waiting,
       handedOff := if tape.ready then s.handedOff + [t] else s.handedOff)
  }

  lemma RunCons(s: System, step: Step, steps: seq<Step>, limits: Limits)
    requires Next(s, step, limits).Some?
    ensures Run(s, [step] + steps, limits) == Run(Next(s, step, limits).value, steps, limits)
  {
    assert ([step] + steps)[1..] == steps;
  }

  lemma RunTwo(s: System, a: Step, b: Step, steps: seq<Step>, limits: Limits)
    requires Next(s, a, limits).Some? && Next(Next(s, a, limits).value, b, limits).Some?
    ensures Run(s, [a, b] + steps, limits) == Run(Next(Next(s, a, limits).value, b, limits).value, steps, limits)
  {
    hide Next;
    RunCons(s, a, [b] + steps, limits);
    RunCons(Next(s, a, limits).value, b, steps, limits);
    assert [a, b] + steps == [a] + ([b] + steps);
  }

  /** With no port in between, the writer's turn is one Write of the tape, and the tape is handed off
      exactly when that Write left it ready. */
  lemma {:induction false} WriterTurn(s: System, t: nat, limits: Limits, fails: nat -> bool)
    requires t < |s.tapes| && s.worker == AtDrain(t)
    ensures Run(s, WriterSteps(s.tapes[t], limits, fails), limits)
         == Some(AfterTurn(s, t, WriteAll(s.tapes[t], limits, fails)))
    decreases |s.tapes[t].queue.chunks|
  {
    var tape := s.tapes[t];
    hide Dequeue, Append, DequeLocked, TakesChunks;
    if !Draining(tape) || tape.queue.chunks == [] {
      LastSteps(s, t, limits);
    } else {
      var failed := fails(tape.queue.popCount);
      var taken := tape.(queue := Dequeue(tape.queue));
      var written := Record(taken, tape.queue.chunks[0], limits, failed);
      var n := s.(tapes := s.tapes[t := written]);
      DrainAndRecord(s, t, limits, failed);
      RunTwo(s, DrainStep, RecordStep(failed), WriterSteps(written, limits, fails), limits);
      WriterTurn(n, t, limits, fails);
      assert s.tapes[t := written][t := WriteAll(written, limits, fails).(ready := false)]
          == s.tapes[t := WriteAll(written, limits, fails).(ready := false)];
    }
  }

  lemma DrainAndRecord(s: System, t: nat, limits: Limits, failed: bool)
    requires t < |s.tapes| && s.worker == AtDrain(t) && Draining(s.tapes[t]) && s.tapes[t].queue.chunks != []
    ensures var tape := s.tapes[t];
            var taken := tape.(queue := Dequeue(tape.queue));
            var written := Record(taken, tape.queue.chunks[0], limits, failed);
      && |written.queue.chunks| < |tape.queue.chunks|
      && Next(s, DrainStep, limits).Some?
      && Next(Next(s, DrainStep, limits).value, RecordStep(failed), limits)
         == Some(s.(tapes := s.tapes[t := written]))
  {
    hide Append;
    var tape := s.tapes[t];
    var taken := tape.(queue := Dequeue(tape.queue));
    var written := Record(taken, tape.queue.chunks[0], limits, failed);
    assert s.tapes[t := taken][t := written] == s.tapes[t := written];
  }

  lemma LastSteps(s: System, t: nat, limits: Limits)
    requires t < |s.tapes| && s.worker == AtDrain(t)
    requires !Draining(s.tapes[t]) || s.tapes[t].queue.chunks == []
    ensures Run(s, [DrainStep, StopCheckStep, HandOffStep], limits) == Some(AfterTurn(s, t, CheckStop(s.tapes[t])))
  {
    hide DequeLocked;
    var checked := CheckStop(s.tapes[t]);
    var n := s.(worker := AtHandOff(t), tapes := s.tapes[t := checked]);
    assert Next(Next(s, DrainStep, limits).value, StopCheckStep, limits) == Some(n);
    RunTwo(s, DrainStep, StopCheckStep, [HandOffStep], limits);
    RunCons(n, HandOffStep, [], limits);
    assert [DrainStep, StopCheckStep] + [HandOffStep] == [DrainStep, StopCheckStep, HandOffStep];
    assert [HandOffStep] + [] == [HandOffStep];
    assert s.tapes[t := checked][t := checked.(ready := false)] == s.tapes[t := checked.(ready := false)];
    assert s.tapes[t := checked][t := checked] == s.tapes[t := checked];
    assert !checked.ready ==> checked.(ready := false) == checked;
  }
}
