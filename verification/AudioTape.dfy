/** The recording of one call: chunks queued by a capture thread, drained to a file by the
    writer thread.

    `Tape` is the value of one tape; each function on it is one piece of work the source does
    without interruption, either inside the tape's mutex or between two mutex sections. The class
    `AudioTape` runs those pieces in the source's order. `TapeHandOff` interleaves the very same
    functions between threads. */
module AudioTapes {

  datatype Chunk = Chunk(sequence: nat, numBytes: nat)

  datatype Limits = Limits(batchKByte: nat, fileSizeLimitKb: nat) {
    function QueueLimit(): nat { batchKByte * 3 * 1024 }
  }

  function SumBytes(chunks: seq<Chunk>): (n: nat) {
    if chunks == [] then 0 else chunks[0].numBytes + SumBytes(chunks[1..])
  }

  lemma {:induction false} SumBytesAppend(a: seq<Chunk>, c: Chunk)
    ensures SumBytes(a + [c]) == SumBytes(a) + c.numBytes
  {
    if a == [] {
      assert a + [c] == [c];
      assert [c][1..] == [];
    } else {
      assert (a + [c])[1..] == a[1..] + [c];
      SumBytesAppend(a[1..], c);
    }
  }

  /** `a` is `b` with some elements left out. */
  ghost predicate Subsequence<T>(a: seq<T>, b: seq<T>)
    decreases |b|
  {
    a == [] ||
    (b != [] &&
     ((a[|a|-1] == b[|b|-1] && Subsequence(a[..|a|-1], b[..|b|-1])) ||
      Subsequence(a, b[..|b|-1])))
  }

  lemma SubsequenceSkip<T>(a: seq<T>, b: seq<T>, x: T)
    requires Subsequence(a, b)
    ensures Subsequence(a, b + [x])
  {
    assert (b + [x])[..|b|] == b;
  }

  lemma SubsequenceKeep<T>(a: seq<T>, b: seq<T>, x: T)
    requires Subsequence(a, b)
    ensures Subsequence(a + [x], b + [x])
  {
    assert (b + [x])[..|b|] == b && (a + [x])[..|a|] == a;
  }

  // ---------------------------------------------------------------------------------------------
  // The queue of chunks and its counters

  /** `accepted` and `popped` are histories: all chunks that ever entered and left the queue. */
  datatype ChunkQueue = ChunkQueue(
    chunks: seq<Chunk>,
    dataSize: int,
    pushCount: nat,
    popCount: nat,
    rejectedCount: nat,
    highMark: nat,
    accepted: seq<Chunk>,
    popped: seq<Chunk>)

  /** The section of AddAudioChunk that holds the tape's mutex. */
  function Enqueue(q: ChunkQueue, c: Chunk, limits: Limits): (r: ChunkQueue) {
    if q.dataSize >= limits.QueueLimit() then
      q.(rejectedCount := q.rejectedCount + 1)
    else
      ChunkQueue(q.chunks + [c], q.dataSize + c.numBytes, q.pushCount + 1, q.popCount, q.rejectedCount,
                 if |q.chunks| + 1 > q.highMark then |q.chunks| + 1 else q.highMark,
                 q.accepted + [c], q.popped)
  }

  /** The section of Write that holds the tape's mutex. */
  function Dequeue(q: ChunkQueue): (r: ChunkQueue)
    requires q.chunks != []
  {
    ChunkQueue(q.chunks[1..], q.dataSize - q.chunks[0].numBytes, q.pushCount, q.popCount + 1, q.rejectedCount,
               q.highMark, q.accepted, q.popped + [q.chunks[0]])
  }

  /** Pushes minus pops is the length; the size is the queued bytes and below the limit plus the
      newest chunk; chunks leave in the order they came. */
  ghost predicate Counted(q: ChunkQueue, limits: Limits) {
    && q.pushCount == |q.accepted|
    && q.popCount == |q.popped|
    && q.accepted == q.popped + q.chunks
    && q.dataSize == SumBytes(q.chunks)
    && (q.chunks != [] ==> q.dataSize < limits.QueueLimit() + q.chunks[|q.chunks|-1].numBytes)
    && |q.chunks| <= q.highMark
  }

  lemma EnqueueCounted(q: ChunkQueue, c: Chunk, limits: Limits)
    requires Counted(q, limits)
    ensures var r := Enqueue(q, c, limits);
      Counted(r, limits) && r.popped == q.popped
      && r.pushCount + r.rejectedCount == q.pushCount + q.rejectedCount + 1
  {
    SumBytesAppend(q.chunks, c);
    assert q.popped + (q.chunks + [c]) == q.popped + q.chunks + [c];
  }

  /** A chunk is taken if and only if less than three batches of bytes are queued. */
  lemma EnqueueTakesIff(q: ChunkQueue, c: Chunk, limits: Limits)
    ensures var r := Enqueue(q, c, limits);
      && (r.accepted == q.accepted + [c] <==> q.dataSize < 3 * 1024 * limits.batchKByte)
      && (r.chunks == q.chunks + [c] <==> q.dataSize < 3 * 1024 * limits.batchKByte)
      && (r.accepted == q.accepted + [c] ==>
            && r.dataSize == q.dataSize + c.numBytes && r.pushCount == q.pushCount + 1
            && r.popCount == q.popCount && r.rejectedCount == q.rejectedCount && r.popped == q.popped)
      && (r.accepted != q.accepted + [c] ==> r == q.(rejectedCount := q.rejectedCount + 1))
  {
    assert |q.accepted + [c]| != |q.accepted| && |q.chunks + [c]| != |q.chunks|;
  }

  lemma DequeueCounted(q: ChunkQueue, limits: Limits)
    requires Counted(q, limits) && q.chunks != []
    ensures Counted(Dequeue(q), limits)
  {
    assert q.popped + q.chunks == q.popped + [q.chunks[0]] + q.chunks[1..];
  }

  // ---------------------------------------------------------------------------------------------
  // The file a tape writes

  /** `written` is the history of chunks that reached the file. */
  datatype TapeFile = TapeFile(
    onDisk: bool,
    closed: bool,
    bytesWritten: nat,
    overLimit: nat,
    numErrors: nat,
    written: seq<Chunk>)

  /** `fails` says that opening or writing the file threw. */
  function Append(f: TapeFile, c: Chunk, limits: Limits, fails: bool): (r: TapeFile) {
    if f.bytesWritten / 1024 > limits.fileSizeLimitKb then f.(overLimit := f.overLimit + 1)
    else if fails then f.(numErrors := f.numErrors + 1)
    else f.(bytesWritten := f.bytesWritten + c.numBytes, written := f.written + [c])
  }

  /** Every chunk of `taken` was written, refused for size or lost to an error, in order. */
  ghost predicate Recorded(f: TapeFile, taken: seq<Chunk>) {
    && f.bytesWritten == SumBytes(f.written)
    && Subsequence(f.written, taken)
    && |taken| == |f.written| + f.overLimit + f.numErrors
  }

  lemma AppendRecorded(f: TapeFile, taken: seq<Chunk>, c: Chunk, limits: Limits, fails: bool)
    requires Recorded(f, taken)
    ensures Recorded(Append(f, c, limits, fails), taken + [c])
  {
    SubsequenceKeep(f.written, taken, c);
    SubsequenceSkip(f.written, taken, c);
    SumBytesAppend(f.written, c);
  }

  /** A chunk reaches the file if and only if the file has not grown a whole kilobyte past its limit and
      writing does not fail; a chunk that does not is counted as one or the other. */
  lemma AppendWritesIff(f: TapeFile, c: Chunk, limits: Limits, fails: bool)
    ensures var r := Append(f, c, limits, fails);
            var full := f.bytesWritten >= 1024 * (limits.fileSizeLimitKb + 1);
      && (r.written == f.written + [c] <==> !full && !fails)
      && (!full && !fails ==> r == f.(written := f.written + [c], bytesWritten := f.bytesWritten + c.numBytes))
      && (full ==> r == f.(overLimit := f.overLimit + 1))
      && (!full && fails ==> r == f.(numErrors := f.numErrors + 1))
  {
    assert |f.written + [c]| != |f.written|;
  }

  // ---------------------------------------------------------------------------------------------
  // The tape

  /** `Error` is tested by the source but never assigned. */
  datatype State = Created | Active | Stopped | Error

  datatype Tape = Tape(
    state: State,
    shouldStop: bool,
    isQueued: bool,
    queue: ChunkQueue,
    file: TapeFile,
    ready: bool)

  const NEW_TAPE := Tape(Created, false, false, ChunkQueue([], 0, 0, 0, 0, 0, [], []),
                         TapeFile(false, false, 0, 0, 0, []), false)

  predicate TakesChunks(t: Tape) { t.state == Created || t.state == Active }

  function Offer(t: Tape, c: Chunk, limits: Limits): (r: Tape) {
    if TakesChunks(t) then t.(queue := Enqueue(t.queue, c, limits)) else t
  }

  predicate Draining(t: Tape) { t.state != Stopped && t.state != Error }

  /** What Write does with a chunk it took: the first one creates the file. */
  function Record(t: Tape, c: Chunk, limits: Limits, fails: bool): (r: Tape) {
    var u := if t.state == Created then t.(state := Active, file := t.file.(onDisk := true)) else t;
    if u.state == Active then u.(file := Append(u.file, c, limits, fails)) else u
  }

  /** The test of the stop flag that ends Write. */
  function CheckStop(t: Tape): (r: Tape) {
    if (t.shouldStop && t.state != Stopped) || t.state == Error then
      if t.file.onDisk then
        t.(state := Stopped, file := t.file.(closed := true), ready := t.ready || t.file.bytesWritten > 0)
      else t.(state := Stopped)
    else t
  }

  /** Write's loop when no other thread touches the tape; `fails` is indexed by pop count. */
  function Drain(t: Tape, limits: Limits, fails: nat -> bool): (r: Tape)
    decreases |t.queue.chunks|
  {
    if !Draining(t) || t.queue.chunks == [] then t
    else
      var taken := t.(queue := Dequeue(t.queue));
      Drain(Record(taken, t.queue.chunks[0], limits, fails(t.queue.popCount)), limits, fails)
  }

  function WriteAll(t: Tape, limits: Limits, fails: nat -> bool): (r: Tape) {
    CheckStop(Drain(t, limits, fails))
  }

  /** Where a tape may be in its life. */
  ghost predicate LifeCycle(t: Tape) {
    && t.state != Error
    && (t.state == Created ==> !t.file.onDisk)
    && (t.state == Active ==> t.file.onDisk)
    && (!t.file.onDisk ==> t.file.bytesWritten == 0)
    && (t.file.closed <==> t.state == Stopped && t.file.onDisk)
    && (t.state == Stopped ==> t.shouldStop)
    && (t.ready ==> t.file.closed && t.file.bytesWritten > 0)
  }

  /** One undisturbed Write on a tape that is not stopped empties the queue. It stops the tape
      exactly when that was asked for, and leaves it ready exactly when its file has bytes. */
  lemma WriteAllEmpties(t: Tape, limits: Limits, fails: nat -> bool)
    requires Counted(t.queue, limits) && Recorded(t.file, t.queue.popped) && LifeCycle(t) && Draining(t)
    ensures var r := WriteAll(t, limits, fails);
      && Counted(r.queue, limits) && Recorded(r.file, r.queue.popped) && LifeCycle(r)
      && r.queue.chunks == [] && r.queue.popped == t.queue.accepted == r.queue.accepted
      && (r.state == Stopped <==> t.shouldStop)
      && (r.ready <==> t.shouldStop && r.file.bytesWritten > 0)
  {
    DrainEmpties(t, limits, fails);
  }

  lemma {:induction false} DrainEmpties(t: Tape, limits: Limits, fails: nat -> bool)
    requires Counted(t.queue, limits) && Recorded(t.file, t.queue.popped) && LifeCycle(t) && Draining(t)
    ensures var r := Drain(t, limits, fails);
      && Counted(r.queue, limits) && Recorded(r.file, r.queue.popped) && LifeCycle(r) && Draining(r)
      && r.queue.chunks == [] && r.queue.popped == t.queue.accepted == r.queue.accepted
      && r.shouldStop == t.shouldStop
    decreases |t.queue.chunks|
  {
    if t.queue.chunks == [] {
      assert t.queue.popped + [] == t.queue.popped;
    } else {
      var c, f := t.queue.chunks[0], fails(t.queue.popCount);
      DequeueCounted(t.queue, limits);
      AppendRecorded(t.file, t.queue.popped, c, limits, f);
      AppendRecorded(t.file.(onDisk := true), t.queue.popped, c, limits, f);
      DrainEmpties(Record(t.(queue := Dequeue(t.queue)), c, limits, f), limits, fails);
    }
  }

  /** Without write errors the chunks are all written, in order, if and only if those before the last do
      not yet fill the file to its limit. */
  lemma {:induction false} DrainWritesQueue(t: Tape, limits: Limits, fails: nat -> bool)
    requires Draining(t) && forall n :: !fails(n)
    ensures Drain(t, limits, fails).file.overLimit >= t.file.overLimit
    ensures var r, n := Drain(t, limits, fails), |t.queue.chunks|;
      && (r.file.overLimit == t.file.overLimit <==>
            n == 0 || t.file.bytesWritten + SumBytes(t.queue.chunks[..n-1]) < 1024 * (limits.fileSizeLimitKb + 1))
      && (r.file.overLimit == t.file.overLimit ==> r.file.written == t.file.written + t.queue.chunks)
    decreases |t.queue.chunks|
  {
    hide Append, Recorded;
    var chunks, n := t.queue.chunks, |t.queue.chunks|;
    if chunks == [] {
      assert t.file.written + [] == t.file.written;
    } else {
      var c := chunks[0];
      var next := Record(t.(queue := Dequeue(t.queue)), c, limits, false);
      RecordWritesIff(t.(queue := Dequeue(t.queue)), c, limits);
      hide Record;
      DrainWritesQueue(next, limits, fails);
      SumOfFirst(chunks);
      assert t.file.written + chunks == t.file.written + [c] + chunks[1..];
    }
  }

  lemma RecordWritesIff(t: Tape, c: Chunk, limits: Limits)
    requires Draining(t)
    ensures var r, full := Record(t, c, limits, false), t.file.bytesWritten >= 1024 * (limits.fileSizeLimitKb + 1);
      && Draining(r) && r.queue == t.queue
      && r.file.overLimit == t.file.overLimit + (if full then 1 else 0)
      && r.file.bytesWritten == t.file.bytesWritten + (if full then 0 else c.numBytes)
      && r.file.written == (if full then t.file.written else t.file.written + [c])
  {
    AppendWritesIff(t.file.(onDisk := true), c, limits, false);
    AppendWritesIff(t.file, c, limits, false);
    hide Append;
  }

  lemma SumOfFirst(chunks: seq<Chunk>)
    requires chunks != []
    ensures var n := |chunks|;
      if n == 1 then SumBytes(chunks[..n-1]) == 0
      else SumBytes(chunks[..n-1]) == chunks[0].numBytes + SumBytes(chunks[1..][..n-2])
  {
    var n := |chunks|;
    if n > 1 {
      assert chunks[..n-1][0] == chunks[0] && chunks[..n-1][1..] == chunks[1..][..n-2];
    }
  }

  class AudioTape {
    var state: State
    var shouldStop: bool
    var isQueued: bool
    var chunkQueue: seq<Chunk>
    var chunkQueueDataSize: int
    var pushCount: nat
    var popCount: nat
    var rejectedCount: nat
    var highMark: nat
    var hasFile: bool
    var fileClosed: bool
    var bytesWritten: nat
    var overLimit: nat
    var numErrors: nat
    var readyForBatchProcessing: bool
    ghost var accepted: seq<Chunk>
    ghost var popped: seq<Chunk>
    ghost var written: seq<Chunk>

    ghost function Queue(): ChunkQueue
      reads this
    {
      ChunkQueue(chunkQueue, chunkQueueDataSize, pushCount, popCount, rejectedCount, highMark, accepted, popped)
    }

    ghost function File(): TapeFile
      reads this
    {
      TapeFile(hasFile, fileClosed, bytesWritten, overLimit, numErrors, written)
    }

    ghost function Model(): Tape
      reads this
    {
      Tape(state, shouldStop, isQueued, Queue(), File(), readyForBatchProcessing)
    }

    constructor ()
      ensures Model() == NEW_TAPE
    {
      state, shouldStop, isQueued := Created, false, false;
      chunkQueue, chunkQueueDataSize := [], 0;
      pushCount, popCount, rejectedCount, highMark := 0, 0, 0, 0;
      hasFile, fileClosed, bytesWritten, overLimit, numErrors := false, false, 0, 0, 0;
      readyForBatchProcessing := false;
      accepted, popped, written := [], [], [];
    }

    method AddAudioChunk(chunk: Chunk, limits: Limits)
      modifies this
      ensures Model() == Offer(old(Model()), chunk, limits)
      ensures var open := old(state) == Created || old(state) == Active;
              var room := old(chunkQueueDataSize) < 3 * 1024 * limits.batchKByte;
        && chunkQueue == (if open && room then old(chunkQueue) + [chunk] else old(chunkQueue))
        && chunkQueueDataSize == old(chunkQueueDataSize) + (if open && room then chunk.numBytes else 0)
        && rejectedCount == old(rejectedCount) + (if open && !room then 1 else 0)
    {
      if state == Created || state == Active {
        if chunkQueueDataSize >= limits.batchKByte * 3 * 1024 {
          rejectedCount := rejectedCount + 1;
          return;
        }
        chunkQueue := chunkQueue + [chunk];
        chunkQueueDataSize := chunkQueueDataSize + chunk.numBytes;
        pushCount := pushCount + 1;
        if |chunkQueue| > highMark {
          highMark := |chunkQueue|;
        }
        accepted := accepted + [chunk];
      }
    }

    method PopChunk() returns (chunk: Chunk)
      requires chunkQueue != []
      modifies this
      ensures Model() == old(Model()).(queue := Dequeue(old(Queue()))) && chunk == old(chunkQueue)[0]
    {
      chunk := chunkQueue[0];
      chunkQueue := chunkQueue[1..];
      popCount := popCount + 1;
      chunkQueueDataSize := chunkQueueDataSize - chunk.numBytes;
      popped := popped + [chunk];
    }

    method WriteChunk(chunk: Chunk, limits: Limits, fails: bool)
      modifies this
      ensures Model() == Record(old(Model()), chunk, limits, fails)
    {
      if state == Created {
        state := Active;
        hasFile := true;
      }
      if state == Active {
        if bytesWritten / 1024 > limits.fileSizeLimitKb {
          overLimit := overLimit + 1;
        } else if fails {
          numErrors := numErrors + 1;
        } else {
          bytesWritten := bytesWritten + chunk.numBytes;
          written := written + [chunk];
        }
      }
    }

    method StopIfAsked()
      modifies this
      ensures Model() == CheckStop(old(Model()))
    {
      if (shouldStop && state != Stopped) || state == Error {
        state := Stopped;
        if hasFile {
          fileClosed := true;
          if bytesWritten > 0 {
            readyForBatchProcessing := true;
          }
        }
      }
    }

    method Write(limits: Limits, fails: nat -> bool)
      modifies this
      ensures Model() == WriteAll(old(Model()), limits, fails)
    {
      var done := false;
      while !done && state != Stopped && state != Error
        invariant Drain(Model(), limits, fails) == Drain(old(Model()), limits, fails)
        invariant done ==> chunkQueue == []
        decreases |chunkQueue|, !done
      {
        if |chunkQueue| > 0 {
          var throws := fails(popCount);
          var chunk := PopChunk();
          WriteChunk(chunk, limits, throws);
        } else {
          done := true;
        }
      }
      StopIfAsked();
    }

    method SetShouldStop()
      modifies this
      ensures Model() == old(Model()).(shouldStop := true)
    {
      shouldStop := true;
    }

    method IsReadyForBatchProcessing() returns (isReady: bool)
      modifies this
      ensures isReady == old(readyForBatchProcessing)
      ensures Model() == old(Model()).(ready := false)
    {
      if readyForBatchProcessing {
        readyForBatchProcessing := false;
        return true;
      }
      return false;
    }
  }
}
