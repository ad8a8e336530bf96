/** The capture file: audio chunks as they are, each behind the memory image of its details. */
module MediaChunkFile {
  import opened Common

  /** Size of the details in memory on the platforms the source is built for. */
  const DETAILS_SIZE := 32
  const MARKER := 0x2A2A2A2A
  const MAX_CHUNK_SIZE := 100000

  function Int32At(b: seq<Byte>, i: nat): (n: nat)
    requires i + 4 <= |b|
  {
    b[i] as int + b[i+1] as int * 0x100 + b[i+2] as int * 0x1_0000 + b[i+3] as int * 0x100_0000
  }

  type Details = d: seq<Byte> | |d| == DETAILS_SIZE witness seq(DETAILS_SIZE, _ => 0)

  function MarkerOf(d: Details): nat { Int32At(d, 0) }
  function NumBytesOf(d: Details): nat { Int32At(d, 8) }

  /** `buffer` is None for a chunk without audio memory. */
  datatype AudioChunk = AudioChunk(details: Details, buffer: Option<seq<Byte>>)

  /** A chunk as the capture side makes them: empty, or marked, of the length it says, not too long. */
  predicate Proper(c: AudioChunk) { NumBytesOf(c.details) == 0 || Audible(c) }

  predicate Audible(c: AudioChunk) {
    && MarkerOf(c.details) == MARKER
    && 0 < NumBytesOf(c.details) < MAX_CHUNK_SIZE
    && c.buffer.Some? && |c.buffer.value| == NumBytesOf(c.details)
  }

  function ChunkBytes(c: AudioChunk): (b: seq<Byte>) {
    if c.buffer.None? then [] else c.details + c.buffer.value
  }

  function Encode(chunks: seq<AudioChunk>): (b: seq<Byte>) {
    if chunks == [] then [] else ChunkBytes(chunks[0]) + Encode(chunks[1..])
  }

  // ---------------------------------------------------------------------------------------------
  // Writing

  datatype Writer = Writer(isOpen: bool, bytes: seq<Byte>, queue: seq<AudioChunk>, dataSize: nat)

  const JUST_OPENED := Writer(true, [], [], 0)

  function Flush(w: Writer): (r: Writer) { w.(bytes := w.bytes + Encode(w.queue), queue := [], dataSize := 0) }

  /** Empty chunks are skipped; a batch that grew past the limit is flushed, or an error if the file
      is not open. */
  function Write(w: Writer, c: AudioChunk, batchKByte: nat): (r: Result<Writer>) {
    if NumBytesOf(c.details) == 0 then Success(w)
    else
      var n := w.(queue := w.queue + [c], dataSize := w.dataSize + NumBytesOf(c.details));
      if n.dataSize <= batchKByte * 1024 then Success(n)
      else if n.isOpen then Success(Flush(n))
      else Failure
  }

  function WriteAll(w: Writer, chunks: seq<AudioChunk>, batchKByte: nat): (r: Result<Writer>)
    decreases |chunks|
  {
    if chunks == [] then Success(w)
    else match Write(w, chunks[0], batchKByte)
      case Failure => Failure
      case Success(n) => WriteAll(n, chunks[1..], batchKByte)
  }

  function Close(w: Writer): (r: Writer) { if w.isOpen then Flush(w).(isOpen := false) else w }

  function NonEmpty(chunks: seq<AudioChunk>): (r: seq<AudioChunk>) {
    if chunks == [] then []
    else Kept(chunks[0]) + NonEmpty(chunks[1..])
  }

  function Kept(c: AudioChunk): (r: seq<AudioChunk>) { if NumBytesOf(c.details) == 0 then [] else [c] }

  lemma {:induction false} EncodeOfSum(a: seq<AudioChunk>, b: seq<AudioChunk>)
    ensures Encode(a + b) == Encode(a) + Encode(b)
  {
    hide ChunkBytes;
    if a == [] {
      assert a + b == b;
    } else {
      assert (a + b)[1..] == a[1..] + b;
      EncodeOfSum(a[1..], b);
      Associate(ChunkBytes(a[0]), Encode(a[1..]), Encode(b));
    }
  }

  lemma Associate(a: seq<Byte>, b: seq<Byte>, c: seq<Byte>)
    ensures a + b + c == a + (b + c)
  {}

  lemma WriteKeepsStream(w: Writer, c: AudioChunk, batchKByte: nat)
    requires w.isOpen
    ensures var r := Write(w, c, batchKByte);
      && r.Success? && r.value.isOpen
      && r.value.bytes + Encode(r.value.queue) == w.bytes + Encode(w.queue) + Encode(Kept(c))
  {
    hide NumBytesOf, ChunkBytes;
    if NumBytesOf(c.details) == 0 {
      assert w.bytes + Encode(w.queue) + [] == w.bytes + Encode(w.queue);
    } else {
      EncodeOfSum(w.queue, [c]);
      Associate(w.bytes, Encode(w.queue), Encode([c]));
      var bytes := w.bytes + Encode(w.queue + [c]);
      assert bytes + [] == bytes;
    }
  }

  /** Wherever the batches were flushed, file and queue together hold every non-empty chunk. */
  lemma {:induction false} WriteAllKeepsStream(w: Writer, chunks: seq<AudioChunk>, batchKByte: nat)
    requires w.isOpen
    ensures var r := WriteAll(w, chunks, batchKByte);
      && r.Success? && r.value.isOpen
      && r.value.bytes + Encode(r.value.queue) == w.bytes + Encode(w.queue) + Encode(NonEmpty(chunks))
    decreases |chunks|
  {
    hide Write, Encode, Kept;
    if chunks == [] {
      assert Encode([]) == [] by { NothingEncoded(); }
      assert w.bytes + Encode(w.queue) + [] == w.bytes + Encode(w.queue);
    } else {
      WriteKeepsStream(w, chunks[0], batchKByte);
      WriteAllKeepsStream(Write(w, chunks[0], batchKByte).value, chunks[1..], batchKByte);
      EncodeOfSum(Kept(chunks[0]), NonEmpty(chunks[1..]));
      Associate(w.bytes + Encode(w.queue), Encode(Kept(chunks[0])), Encode(NonEmpty(chunks[1..])));
    }
  }

  lemma NothingEncoded()
    ensures Encode([]) == []
  {}

  /** Closing leaves exactly the non-empty chunks in the file. */
  lemma FileHoldsChunks(chunks: seq<AudioChunk>, batchKByte: nat)
    ensures var r := WriteAll(JUST_OPENED, chunks, batchKByte);
      r.Success? && Close(r.value).bytes == Encode(NonEmpty(chunks))
  {
    WriteAllKeepsStream(JUST_OPENED, chunks, batchKByte);
    assert [] + Encode([]) + Encode(NonEmpty(chunks)) == Encode(NonEmpty(chunks));
  }

  /** The sounding bytes a list of chunks says it has. */
  function DataSize(chunks: seq<AudioChunk>): (n: nat) {
    if chunks == [] then 0 else NumBytesOf(chunks[0].details) + DataSize(chunks[1..])
  }

  lemma {:induction false} DataSizeOfSum(a: seq<AudioChunk>, b: seq<AudioChunk>)
    ensures DataSize(a + b) == DataSize(a) + DataSize(b)
  {
    hide NumBytesOf;
    if a == [] {
      assert a + b == b;
    } else {
      assert (a + b)[1..] == a[1..] + b;
      DataSizeOfSum(a[1..], b);
    }
  }

  /** A chunk that says it is empty changes nothing; any other goes to the end of the queue, and the file is
      written if and only if the queue has then grown beyond the batch: 1024 bytes for each of its KB. */
  lemma WriteTells(w: Writer, c: AudioChunk, batchKByte: nat)
    requires w.isOpen && w.dataSize == DataSize(w.queue)
    ensures var r, n := Write(w, c, batchKByte), NumBytesOf(c.details);
      && r.Success? && r.value.isOpen && r.value.dataSize == DataSize(r.value.queue)
      && (n == 0 ==> r.value == w)
      && (n > 0 && DataSize(w.queue) + n <= 1024 * batchKByte ==> r.value.bytes == w.bytes && r.value.queue == w.queue + [c])
      && (n > 0 && DataSize(w.queue) + n > 1024 * batchKByte ==>
            r.value.bytes == w.bytes + Encode(w.queue + [c]) && r.value.queue == [])
  {
    hide NumBytesOf, Encode;
    DataSizeOfSum(w.queue, [c]);
    DataSizeOne(c);
  }

  /** Between two chunks never more than one batch waits for the file. */
  lemma {:induction false} NeverMoreThanABatch(w: Writer, chunks: seq<AudioChunk>, batchKByte: nat)
    requires w.isOpen && w.dataSize == DataSize(w.queue) <= 1024 * batchKByte
    ensures var r := WriteAll(w, chunks, batchKByte); r.Success? && DataSize(r.value.queue) <= 1024 * batchKByte
    decreases |chunks|
  {
    hide Write, DataSize, NumBytesOf;
    if chunks != [] {
      WriteTells(w, chunks[0], batchKByte);
      assert DataSize([]) == 0 by { NoData(); }
      DataSizeOfSum(w.queue, [chunks[0]]);
      assert DataSize([chunks[0]]) == NumBytesOf(chunks[0].details) by { DataSizeOne(chunks[0]); }
      NeverMoreThanABatch(Write(w, chunks[0], batchKByte).value, chunks[1..], batchKByte);
    }
  }

  lemma DataSizeOne(c: AudioChunk)
    ensures DataSize([c]) == NumBytesOf(c.details)
  {
    assert [c][1..] == [];
  }

  lemma NoData()
    ensures DataSize([]) == 0
  {}

  // ---------------------------------------------------------------------------------------------
  // Reading

  datatype ReadResult =
    | Chunk(chunk: AudioChunk, pos: nat)
    | BlankChunk(pos: nat)
    | EndOfFile
    | InvalidMarker
    | TooBig
    | Incomplete

  predicate Advances(r: ReadResult) { r.Chunk? || r.BlankChunk? }

  /** A read that runs into the end of the file while reading the details is the end; while reading
      the audio it is an error. Details of no audio give a chunk without memory. */
  function Read(bytes: seq<Byte>, pos: nat): (r: ReadResult)
    requires pos <= |bytes|
    ensures Advances(r) ==> pos < r.pos <= |bytes|
  {
    if |bytes| - pos < DETAILS_SIZE then EndOfFile
    else
      var details: Details, start := bytes[pos..pos + DETAILS_SIZE], pos + DETAILS_SIZE;
      var n := NumBytesOf(details);
      if MarkerOf(details) != MARKER then InvalidMarker
      else if n >= MAX_CHUNK_SIZE then TooBig
      else if |bytes| - start < n then Incomplete
      else if n == 0 then BlankChunk(start)
      else Chunk(AudioChunk(details, Some(bytes[start..start + n])), start + n)
  }

  /** A read in the bytes of the file: 32 bytes of details, the first four of them the marker's "****", the
      number of audio bytes, low byte first, in the ninth to the twelfth, then the audio. */
  lemma ReadTells(bytes: seq<Byte>, pos: nat)
    requires pos <= |bytes|
    ensures var r, left := Read(bytes, pos), |bytes| - pos;
      if left < 32 then r == EndOfFile else
      var n := bytes[pos + 8] as int + 256 * bytes[pos + 9] as int + 65536 * bytes[pos + 10] as int + 16777216 * bytes[pos + 11] as int;
      if !(bytes[pos] == 42 && bytes[pos + 1] == 42 && bytes[pos + 2] == 42 && bytes[pos + 3] == 42) then r == InvalidMarker
      else if n >= 100000 then r == TooBig
      else if left < 32 + n then r == Incomplete
      else if n == 0 then r == BlankChunk(pos + 32)
      else r == Chunk(AudioChunk(bytes[pos..pos + 32], Some(bytes[pos + 32..pos + 32 + n])), pos + 32 + n)
  {
    if |bytes| - pos >= 32 {
      var d: Details := bytes[pos..pos + 32];
      assert forall i | 0 <= i < 32 :: d[i] == bytes[pos + i];
      MarkerBytes(d);
      hide MarkerOf;
    }
  }

  lemma MarkerBytes(d: Details)
    ensures MarkerOf(d) == MARKER <==> d[0] == 42 && d[1] == 42 && d[2] == 42 && d[3] == 42
  {}

  /** Reading until something else than a chunk comes. */
  function ReadAll(bytes: seq<Byte>, pos: nat): (r: (seq<AudioChunk>, ReadResult))
    requires pos <= |bytes|
    decreases |bytes| - pos
  {
    match Read(bytes, pos)
    case Chunk(c, next) =>
      var (more, end) := ReadAll(bytes, next);
      ([c] + more, end)
    case BlankChunk(next) => ReadAll(bytes, next)
    case other => ([], other)
  }

  lemma ReadFirst(bytes: seq<Byte>, pos: nat, c: AudioChunk, rest: seq<Byte>)
    requires Audible(c)
    requires pos <= |bytes| && bytes[pos..] == ChunkBytes(c) + rest
    ensures var next := pos + |ChunkBytes(c)|;
      next <= |bytes| && Read(bytes, pos) == Chunk(c, next) && bytes[next..] == rest
  {
    hide NumBytesOf, MarkerOf;
    assert |bytes[pos..]| == |ChunkBytes(c)| + |rest|;
    assert bytes[pos..pos + DETAILS_SIZE] == c.details;
    assert bytes[pos + DETAILS_SIZE..pos + DETAILS_SIZE + |c.buffer.value|] == c.buffer.value;
  }

  lemma {:induction false} ReadsBack(bytes: seq<Byte>, pos: nat, chunks: seq<AudioChunk>)
    requires forall i | 0 <= i < |chunks| :: Audible(chunks[i])
    requires pos <= |bytes| && bytes[pos..] == Encode(chunks)
    ensures ReadAll(bytes, pos) == (chunks, EndOfFile)
    decreases |chunks|
  {
    hide Audible, ChunkBytes, NumBytesOf, MarkerOf;
    if chunks == [] {
      assert |bytes[pos..]| == 0;
    } else {
      hide Read;
      ReadFirst(bytes, pos, chunks[0], Encode(chunks[1..]));
      ReadsBack(bytes, pos + |ChunkBytes(chunks[0])|, chunks[1..]);
      assert chunks == [chunks[0]] + chunks[1..];
    }
  }

  lemma {:induction false} NonEmptyProper(chunks: seq<AudioChunk>)
    requires forall i | 0 <= i < |chunks| :: Proper(chunks[i])
    ensures forall i | 0 <= i < |NonEmpty(chunks)| :: Audible(NonEmpty(chunks)[i])
  {
    hide Audible, NumBytesOf;
    if chunks == [] {
    } else {
      NonEmptyProper(chunks[1..]);
    }
  }

  /** What was written is read back: every non-empty chunk, in order, then the end of the file. */
  lemma WritesReadBack(chunks: seq<AudioChunk>, batchKByte: nat)
    requires forall i | 0 <= i < |chunks| :: Proper(chunks[i])
    ensures var r := WriteAll(JUST_OPENED, chunks, batchKByte);
      r.Success? && ReadAll(Close(r.value).bytes, 0) == (NonEmpty(chunks), EndOfFile)
  {
    hide WriteAll, Close, Encode, NonEmpty, Proper, Audible, ReadAll;
    FileHoldsChunks(chunks, batchKByte);
    NonEmptyProper(chunks);
    var bytes := Encode(NonEmpty(chunks));
    assert bytes[0..] == bytes;
    ReadsBack(bytes, 0, NonEmpty(chunks));
  }

  /** A file cut off anywhere yields a prefix of its chunks: all that are whole. It then ends in the
      incomplete-chunk error exactly when the next chunk has its details but not all of its audio. */
  lemma {:induction false} TruncationReadsPrefix(bytes: seq<Byte>, pos: nat, chunks: seq<AudioChunk>, cut: nat)
    returns (k: nat)
    requires forall i | 0 <= i < |chunks| :: Audible(chunks[i])
    requires pos <= cut <= |bytes| && bytes[pos..] == Encode(chunks)
    ensures k <= |chunks| && |Encode(chunks[..k])| <= cut - pos
    ensures k < |chunks| ==> cut - pos < |Encode(chunks[..k])| + |ChunkBytes(chunks[k])|
    ensures ReadAll(bytes[..cut], pos) == (chunks[..k],
      if k < |chunks| && cut - pos >= |Encode(chunks[..k])| + DETAILS_SIZE then Incomplete else EndOfFile)
    decreases |chunks|
  {
    hide Audible, ChunkBytes, NumBytesOf, MarkerOf, Read, Encode;
    k := 0;
    NothingEncoded();
    assert chunks[..0] == [];
    if chunks == [] {
      assert |bytes[pos..]| == 0;
      NothingLeft(bytes[..cut], pos);
    } else {
      var c, rest := chunks[0], chunks[1..];
      FirstChunk(bytes, pos, chunks);
      var next := pos + |ChunkBytes(c)|;
      if cut < next {
        CutChunk(bytes, pos, c, cut);
      } else {
        WholeChunk(bytes, pos, c, cut);
        var j := TruncationReadsPrefix(bytes, next, rest, cut);
        k := j + 1;
        EncodeTake(chunks, k);
        assert chunks[..k] == [c] + rest[..j];
        assert rest[..j] == rest[..k-1];
        assert k < |chunks| ==> chunks[k] == rest[j];
      }
    }
  }

  lemma NothingLeft(bytes: seq<Byte>, pos: nat)
    requires pos == |bytes|
    ensures Read(bytes, pos) == EndOfFile
  {}

  lemma FirstChunk(bytes: seq<Byte>, pos: nat, chunks: seq<AudioChunk>)
    requires chunks != [] && Audible(chunks[0])
    requires pos <= |bytes| && bytes[pos..] == Encode(chunks)
    ensures var next := pos + |ChunkBytes(chunks[0])|;
      && next <= |bytes| && Read(bytes, pos) == Chunk(chunks[0], next)
      && bytes[next..] == Encode(chunks[1..])
  {
    hide Audible, NumBytesOf, MarkerOf, Read, ChunkBytes;
    ReadFirst(bytes, pos, chunks[0], Encode(chunks[1..]));
  }

  lemma EncodeTake(chunks: seq<AudioChunk>, k: nat)
    requires 0 < k <= |chunks|
    ensures |Encode(chunks[..k])| == |ChunkBytes(chunks[0])| + |Encode(chunks[1..][..k-1])|
  {
    hide ChunkBytes;
    assert chunks[..k][1..] == chunks[1..][..k-1];
  }

  lemma WholeChunk(bytes: seq<Byte>, pos: nat, c: AudioChunk, cut: nat)
    requires pos <= |bytes| && Read(bytes, pos) == Chunk(c, pos + |ChunkBytes(c)|)
    requires pos + |ChunkBytes(c)| <= cut <= |bytes|
    ensures Read(bytes[..cut], pos) == Read(bytes, pos)
  {
    var file, start := bytes[..cut], pos + DETAILS_SIZE;
    assert file[pos..start] == bytes[pos..start];
    assert file[start..start + NumBytesOf(c.details)] == bytes[start..start + NumBytesOf(c.details)];
  }

  lemma CutChunk(bytes: seq<Byte>, pos: nat, c: AudioChunk, cut: nat)
    requires pos <= |bytes| && Read(bytes, pos) == Chunk(c, pos + |ChunkBytes(c)|)
    requires pos <= cut < pos + |ChunkBytes(c)| && cut <= |bytes|
    ensures Read(bytes[..cut], pos) == if cut - pos >= DETAILS_SIZE then Incomplete else EndOfFile
  {
    if cut - pos >= DETAILS_SIZE {
      assert bytes[..cut][pos..pos + DETAILS_SIZE] == bytes[pos..pos + DETAILS_SIZE];
    }
  }

  // ---------------------------------------------------------------------------------------------
  // The class

  class MediaChunkFile {
    var isOpen: bool
    var stream: seq<Byte>
    var readPos: nat
    var chunkQueue: seq<AudioChunk>
    var chunkQueueDataSize: nat

    ghost function Model(): Writer
      reads this
    {
      Writer(isOpen, stream, chunkQueue, chunkQueueDataSize)
    }

    constructor ()
      ensures Model() == Writer(false, [], [], 0)
    {
      isOpen, stream, readPos, chunkQueue, chunkQueueDataSize := false, [], 0, [], 0;
    }

    /** Opening for writing empties the file. */
    method OpenForWriting()
      modifies this
      ensures Model() == old(Model()).(isOpen := true, bytes := [])
    {
      isOpen, stream := true, [];
    }

    method OpenForReading(contents: seq<Byte>)
      modifies this
      ensures isOpen && stream == contents && readPos == 0 && chunkQueue == old(chunkQueue)
    {
      isOpen, stream, readPos := true, contents, 0;
    }

    method FlushToDisk()
      modifies this
      ensures Model() == Flush(old(Model())) && readPos == old(readPos)
    {
      ghost var all := chunkQueue;
      while |chunkQueue| > 0
        invariant isOpen == old(isOpen) && readPos == old(readPos)
        invariant stream + Encode(chunkQueue) == old(stream) + Encode(all)
      {
        var tmpChunk := chunkQueue[0];
        Associate(stream, ChunkBytes(tmpChunk), Encode(chunkQueue[1..]));
        chunkQueue := chunkQueue[1..];
        if tmpChunk.buffer.Some? {
          Associate(stream, tmpChunk.details, tmpChunk.buffer.value);
          stream := stream + tmpChunk.details;
          stream := stream + tmpChunk.buffer.value;
        } else {
          assert stream + [] == stream;
        }
      }
      assert stream + [] == stream;
      chunkQueueDataSize := 0;
    }

    method WriteChunk(chunk: AudioChunk, batchKByte: nat) returns (ok: bool)
      modifies this
      ensures ok <==> Write(old(Model()), chunk, batchKByte).Success?
      ensures ok ==> Model() == Write(old(Model()), chunk, batchKByte).value
    {
      if NumBytesOf(chunk.details) == 0 {
        return true;
      }
      chunkQueueDataSize := chunkQueueDataSize + NumBytesOf(chunk.details);
      chunkQueue := chunkQueue + [chunk];
      if chunkQueueDataSize > batchKByte * 1024 {
        if !isOpen {
          return false;
        }
        FlushToDisk();
      }
      return true;
    }

    method CloseFile()
      modifies this
      ensures Model() == Close(old(Model()))
    {
      if isOpen {
        FlushToDisk();
        isOpen := false;
      }
    }

    method ReadChunkMono() returns (r: ReadResult)
      requires isOpen && readPos <= |stream|
      modifies this`readPos
      ensures r == Read(stream, old(readPos)) && readPos <= |stream|
      ensures Advances(r) ==> readPos == r.pos
    {
      if |stream| - readPos < DETAILS_SIZE {
        return EndOfFile;
      }
      var details: Details := stream[readPos..readPos + DETAILS_SIZE];
      if MarkerOf(details) != MARKER {
        return InvalidMarker;
      }
      if NumBytesOf(details) >= MAX_CHUNK_SIZE {
        return TooBig;
      }
      var start, n := readPos + DETAILS_SIZE, NumBytesOf(details);
      if |stream| - start < n {
        return Incomplete;
      }
      if n == 0 {
        readPos := start;
        return BlankChunk(start);
      }
      readPos := start + n;
      return Chunk(AudioChunk(details, Some(stream[start..start + n])), start + n);
    }
  }
}
