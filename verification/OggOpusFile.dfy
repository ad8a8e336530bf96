/** Re-cutting 16-bit mono chunks into the frames the Opus encoder takes. The encoder is a log. */
module OggOpusFile {
  import opened Common

  const FRAME_SAMPLES := 160
  const FRAME_BYTES := 320
  const PCM_SIZE := 64000

  /** `counted` is what the file believes to be pending, in samples; `extraLen` what is, in bytes. */
  datatype Framer = Framer(
    isOpen: bool, pcm: seq<Byte>, extra: seq<Byte>, extraLen: nat, counted: nat, frames: seq<seq<Byte>>)
  {
    predicate Shaped() { |pcm| == PCM_SIZE && |extra| == FRAME_BYTES && extraLen <= FRAME_BYTES }

    function Pending(): (b: seq<Byte>)
      requires Shaped()
    {
      extra[..extraLen]
    }

    function Stream(): (b: seq<Byte>)
      requires Shaped()
    {
      Flat(frames) + Pending()
    }

    /** The count agrees with the bytes. */
    predicate Synced() { Shaped() && extraLen == 2 * counted && counted < FRAME_SAMPLES }
  }

  function Flat(frames: seq<seq<Byte>>): (b: seq<Byte>) {
    if frames == [] then [] else Flat(frames[..|frames|-1]) + frames[|frames|-1]
  }

  function Copied(dst: seq<Byte>, at: nat, src: seq<Byte>): (r: seq<Byte>)
    requires at + |src| <= |dst|
    ensures |r| == |dst|
  {
    dst[..at] + src + dst[at + |src|..]
  }

  function Zeros(n: nat): (z: seq<Byte>)
    ensures |z| == n
  {
    seq(n, _ => 0)
  }

  /** The first `n` frames of a buffer. */
  function Frames(buf: seq<Byte>, n: nat): (f: seq<seq<Byte>>)
    requires FRAME_BYTES * n <= |buf|
    ensures |f| == n
  {
    if n == 0 then [] else Frames(buf, n - 1) + [buf[FRAME_BYTES * (n - 1)..FRAME_BYTES * n]]
  }

  // ---------------------------------------------------------------------------------------------
  // One chunk

  function NumSamples(chunk: seq<Byte>): nat { |chunk| / 2 }

  predicate Short(s: Framer, chunk: seq<Byte>) { NumSamples(chunk) + s.counted < FRAME_SAMPLES }

  function FullFrames(s: Framer, chunk: seq<Byte>): nat { (NumSamples(chunk) + s.counted) / FRAME_SAMPLES }

  function ExtraBytes(s: Framer, chunk: seq<Byte>): nat { 2 * ((NumSamples(chunk) + s.counted) % FRAME_SAMPLES) }

  /** Where the rest that fills no frame starts in the chunk, by the file's count. */
  function ExtraPos(s: Framer, chunk: seq<Byte>): int { |chunk| - ExtraBytes(s, chunk) }

  /** The copies of one write stay inside the two buffers and the chunk. */
  predicate InBounds(s: Framer, chunk: seq<Byte>)
    requires s.Shaped()
  {
    if Short(s, chunk) then s.extraLen + |chunk| <= FRAME_BYTES
    else
      && 0 <= ExtraPos(s, chunk)
      && FRAME_BYTES * FullFrames(s, chunk) <= PCM_SIZE
      && s.extraLen + ExtraPos(s, chunk) <= PCM_SIZE
      && (s.counted == 0 ==> s.extraLen + ExtraBytes(s, chunk) <= FRAME_BYTES)
  }

  function MainBuffer(s: Framer, chunk: seq<Byte>): (pcm: seq<Byte>)
    requires s.Shaped() && !Short(s, chunk) && InBounds(s, chunk)
    ensures |pcm| == PCM_SIZE
  {
    if s.counted > 0 then
      Copied(Copied(s.pcm, 0, s.Pending()), s.extraLen, chunk[..ExtraPos(s, chunk)])
    else
      Copied(s.pcm, 0, chunk[..FRAME_BYTES * FullFrames(s, chunk)])
  }

  function Write(s: Framer, chunk: seq<Byte>): (t: Framer)
    requires s.Shaped() && InBounds(s, chunk)
    ensures t.Shaped()
  {
    if chunk == [] || !s.isOpen then s
    else if Short(s, chunk) then
      // the samples already pending are counted a second time here
      s.(extra := Copied(s.extra, s.extraLen, chunk), extraLen := s.extraLen + |chunk|,
         counted := NumSamples(chunk) + s.counted + s.counted)
    else
      var kept := if s.counted > 0 then Copied(s.extra, 0, Zeros(s.extraLen)) else s.extra;
      var keptLen := if s.counted > 0 then 0 else s.extraLen;
      var pcm := MainBuffer(s, chunk);
      s.(pcm := pcm, extra := Copied(kept, 0, chunk[ExtraPos(s, chunk)..]),
         extraLen := keptLen + ExtraBytes(s, chunk), counted := ExtraBytes(s, chunk) / 2,
         frames := s.frames + Frames(pcm, FullFrames(s, chunk)))
  }

  function Close(s: Framer): (t: Framer)
    requires s.Shaped()
    ensures t.Shaped()
  {
    if s.extraLen == 0 then s.(isOpen := false)
    else
      var padded := Copied(s.extra, s.extraLen, Zeros(FRAME_BYTES - s.extraLen));
      s.(isOpen := false, extra := padded, frames := s.frames + Frames(padded, 1))
  }

  // ---------------------------------------------------------------------------------------------
  // Frames and their bytes

  lemma {:induction false} FlatOfSum(a: seq<seq<Byte>>, b: seq<seq<Byte>>)
    ensures Flat(a + b) == Flat(a) + Flat(b)
    decreases |b|
  {
    if b == [] {
      assert a + b == a;
    } else {
      var last := |b| - 1;
      FlatOfSum(a, b[..last]);
      assert (a + b)[..|a + b| - 1] == a + b[..last];
      Associate(Flat(a), Flat(b[..last]), b[last]);
    }
  }

  lemma Associate(a: seq<Byte>, b: seq<Byte>, c: seq<Byte>)
    ensures a + b + c == a + (b + c)
  {}

  lemma {:induction false} FlatOfFrames(buf: seq<Byte>, n: nat)
    requires FRAME_BYTES * n <= |buf|
    ensures Flat(Frames(buf, n)) == buf[..FRAME_BYTES * n]
  {
    if n == 0 {
    } else {
      FlatOfFrames(buf, n - 1);
      var f := Frames(buf, n);
      assert f[..n - 1] == Frames(buf, n - 1);
      assert buf[..FRAME_BYTES * n] == buf[..FRAME_BYTES * (n - 1)] + buf[FRAME_BYTES * (n - 1)..FRAME_BYTES * n];
    }
  }

  // ---------------------------------------------------------------------------------------------
  // What one write does from a synced state

  /** From a synced state the copies fit exactly when the full frames fit the main buffer. */
  lemma SyncedInBounds(s: Framer, chunk: seq<Byte>)
    requires s.Synced() && |chunk| % 2 == 0
    ensures InBounds(s, chunk) <==> s.extraLen + |chunk| < PCM_SIZE + FRAME_BYTES
  {
    var total := NumSamples(chunk) + s.counted;
    assert total == FRAME_SAMPLES * (total / FRAME_SAMPLES) + total % FRAME_SAMPLES;
    assert s.extraLen + |chunk| == 2 * total;
  }

  lemma FullFramesAddUp(s: Framer, chunk: seq<Byte>)
    requires |chunk| % 2 == 0
    ensures FRAME_BYTES * FullFrames(s, chunk) + ExtraBytes(s, chunk) == 2 * s.counted + |chunk|
  {
    var total := NumSamples(chunk) + s.counted;
    assert total == FRAME_SAMPLES * (total / FRAME_SAMPLES) + total % FRAME_SAMPLES;
  }

  lemma ShortWrite(s: Framer, chunk: seq<Byte>)
    requires s.Synced() && s.isOpen && chunk != [] && |chunk| % 2 == 0
    requires InBounds(s, chunk) && Short(s, chunk)
    ensures Write(s, chunk).Stream() == s.Stream() + chunk
    ensures Write(s, chunk).Synced() <==> s.counted == 0
  {
    hide Flat;
    var t := Write(s, chunk);
    assert t.Pending() == s.Pending() + chunk;
    Associate(Flat(s.frames), s.Pending(), chunk);
  }

  lemma FullWriteBuffers(s: Framer, chunk: seq<Byte>)
    requires s.Synced() && s.isOpen && |chunk| % 2 == 0
    requires InBounds(s, chunk) && !Short(s, chunk)
    ensures MainBuffer(s, chunk)[..FRAME_BYTES * FullFrames(s, chunk)] == s.Pending() + chunk[..ExtraPos(s, chunk)]
    ensures Write(s, chunk).Pending() == chunk[ExtraPos(s, chunk)..]
  {
    hide Flat, Frames;
    FullFramesAddUp(s, chunk);
    hide FullFrames, ExtraBytes;
  }

  lemma FullWrite(s: Framer, chunk: seq<Byte>)
    requires s.Synced() && s.isOpen && chunk != [] && |chunk| % 2 == 0
    requires InBounds(s, chunk) && !Short(s, chunk)
    ensures Write(s, chunk).Stream() == s.Stream() + chunk
    ensures Write(s, chunk).Synced()
  {
    hide Flat, MainBuffer, Frames;
    var t, pos, pcm := Write(s, chunk), ExtraPos(s, chunk), MainBuffer(s, chunk);
    FullWriteBuffers(s, chunk);
    FlatOfSum(s.frames, Frames(pcm, FullFrames(s, chunk)));
    FlatOfFrames(pcm, FullFrames(s, chunk));
    assert Flat(t.frames) == Flat(s.frames) + (s.Pending() + chunk[..pos]);
    Regroup(Flat(s.frames), s.Pending(), chunk, pos);
  }

  lemma Regroup(a: seq<Byte>, b: seq<Byte>, c: seq<Byte>, k: nat)
    requires k <= |c|
    ensures a + (b + c[..k]) + c[k..] == a + b + c
  {}

  /** The guard: a chunk that completes no frame comes only when nothing is pending. */
  predicate Guard(s: Framer, chunk: seq<Byte>) { Short(s, chunk) ==> s.counted == 0 }

  // ---------------------------------------------------------------------------------------------
  // Whole runs

  predicate Samples(chunk: seq<Byte>) { chunk != [] && |chunk| % 2 == 0 }

  function Joined(chunks: seq<seq<Byte>>): (b: seq<Byte>) { Flat(chunks) }

  /** None when some copy of the run leaves its buffer. */
  function Run(s: Framer, chunks: seq<seq<Byte>>): (r: Option<Framer>)
    requires s.Shaped()
    ensures r.Some? ==> r.value.Shaped()
    decreases |chunks|
  {
    if chunks == [] then Some(s)
    else
      var before := Run(s, chunks[..|chunks|-1]);
      var last := chunks[|chunks|-1];
      if before.Some? && InBounds(before.value, last) then Some(Write(before.value, last)) else None
  }

  /** Bytes in the frames before chunk `i`, had all gone well, decide what is pending: a caller can
      tell from the lengths alone whether the guard holds throughout. */
  predicate GuardedAt(chunks: seq<seq<Byte>>, i: nat)
    requires i < |chunks|
  {
    var pending := |Joined(chunks[..i])| % FRAME_BYTES;
    pending + |chunks[i]| < FRAME_BYTES ==> pending == 0
  }

  predicate Guarded(chunks: seq<seq<Byte>>) { forall i | 0 <= i < |chunks| :: GuardedAt(chunks, i) }

  lemma GuardedSplit(chunks: seq<seq<Byte>>)
    requires chunks != []
    ensures var n := |chunks| - 1; Guarded(chunks) <==> Guarded(chunks[..n]) && GuardedAt(chunks, n)
  {
    hide Joined;
    var n := |chunks| - 1;
    forall i | 0 <= i < n ensures GuardedAt(chunks, i) <==> GuardedAt(chunks[..n], i) {
      assert chunks[..n][..i] == chunks[..i];
    }
    if Guarded(chunks) {
      forall i | 0 <= i < n ensures GuardedAt(chunks[..n], i) {
        assert GuardedAt(chunks, i);
      }
    }
    if Guarded(chunks[..n]) && GuardedAt(chunks, n) {
      forall i | 0 <= i < |chunks| ensures GuardedAt(chunks, i) {
        if i < n {
          assert GuardedAt(chunks[..n], i);
        }
      }
    }
  }

  /** Count and bytes agree, and frames and pending bytes together are the input. */
  ghost predicate Whole(s: Framer, chunks: seq<seq<Byte>>) { s.Synced() && s.Stream() == Joined(chunks) }

  /** Bytes counted so far beyond the bytes given. */
  function Excess(s: Framer, chunks: seq<seq<Byte>>): int {
    |Flat(s.frames)| + 2 * s.counted - |Joined(chunks)|
  }

  lemma PendingIsRemainder(s: Framer, chunks: seq<seq<Byte>>)
    requires Whole(s, chunks)
    requires forall f | f in s.frames :: |f| == FRAME_BYTES
    ensures |Joined(chunks)| % FRAME_BYTES == 2 * s.counted
  {
    FlatLength(s.frames);
    Remainder(|s.frames|, 2 * s.counted);
  }

  lemma Remainder(n: nat, r: nat)
    requires r < FRAME_BYTES
    ensures (FRAME_BYTES * n + r) % FRAME_BYTES == r
  {}

  lemma {:induction false} FlatLength(frames: seq<seq<Byte>>)
    requires forall f | f in frames :: |f| == FRAME_BYTES
    ensures |Flat(frames)| == FRAME_BYTES * |frames|
  {
    if frames == [] {
    } else {
      var n := |frames| - 1;
      assert frames[n] in frames;
      FlatLength(frames[..n]);
    }
  }

  /** One write from any state: the excess never falls, and grows exactly by what was pending when the
      guard is broken. */
  lemma ExcessGrows(s: Framer, chunk: seq<Byte>)
    requires s.Shaped() && s.isOpen && Samples(chunk) && InBounds(s, chunk)
    ensures var t := Write(s, chunk);
      && t.isOpen
      && |Flat(t.frames)| + 2 * t.counted
         == |Flat(s.frames)| + 2 * s.counted + |chunk| + (if Short(s, chunk) then 2 * s.counted else 0)
  {
    hide Flat, MainBuffer, Frames;
    if !Short(s, chunk) {
      var pcm := MainBuffer(s, chunk);
      FullFramesAddUp(s, chunk);
      FlatOfSum(s.frames, Frames(pcm, FullFrames(s, chunk)));
      FlatOfFrames(pcm, FullFrames(s, chunk));
    }
  }

  predicate EvenFrames(s: Framer) { forall f | f in s.frames :: |f| == FRAME_BYTES }

  lemma {:induction false} FramesEven(buf: seq<Byte>, n: nat)
    requires FRAME_BYTES * n <= |buf|
    ensures forall f | f in Frames(buf, n) :: |f| == FRAME_BYTES
  {
    if n == 0 {
    } else {
      FramesEven(buf, n - 1);
    }
  }

  lemma WriteEvenFrames(s: Framer, chunk: seq<Byte>)
    requires s.Shaped() && InBounds(s, chunk) && EvenFrames(s)
    ensures EvenFrames(Write(s, chunk))
  {
    hide MainBuffer, Frames;
    if !Short(s, chunk) {
      FramesEven(MainBuffer(s, chunk), FullFrames(s, chunk));
    }
  }

  function Opened(pcm: seq<Byte>, extra: seq<Byte>): (s: Framer) { Framer(true, pcm, extra, 0, 0, []) }

  /** In every run that stays inside the buffers: as long as the guard held, the frames followed by the
      pending bytes are the input, with nothing lost, repeated or moved; once it was broken, the count
      and the bytes never agree with the input again. */
  lemma {:induction false} RunIsWholeIffGuarded(pcm: seq<Byte>, extra: seq<Byte>, chunks: seq<seq<Byte>>)
    requires |pcm| == PCM_SIZE && |extra| == FRAME_BYTES
    requires forall c | c in chunks :: Samples(c)
    requires Run(Opened(pcm, extra), chunks).Some?
    ensures var s := Run(Opened(pcm, extra), chunks).value;
      && s.isOpen && EvenFrames(s)
      && Excess(s, chunks) >= 0
      && (Guarded(chunks) ==> Excess(s, chunks) == 0)
      && (!Guarded(chunks) ==> Excess(s, chunks) > 0)
      && (Whole(s, chunks) <==> Guarded(chunks))
    decreases |chunks|
  {
    hide Write, InBounds, Guarded, GuardedAt, Flat, Short;
    var start := Opened(pcm, extra);
    if chunks == [] {
      EmptyRun(pcm, extra);
    } else {
      var n := |chunks| - 1;
      var before, last := chunks[..n], chunks[n];
      assert forall c | c in before :: c in chunks;
      RunIsWholeIffGuarded(pcm, extra, before);
      var s := Run(start, before).value;
      assert last in chunks;
      GuardedSplit(chunks);
      WriteEvenFrames(s, last);
      ExcessGrows(s, last);
      JoinedSplit(chunks);
      StepWhole(s, before, chunks, last);
    }
  }

  /** Nothing is pending before the chunk, or it completes a frame of 320 bytes. */
  predicate Completes(chunks: seq<seq<Byte>>, i: nat)
    requires i < |chunks|
  {
    |Joined(chunks[..i])| % 320 == 0 || |Joined(chunks[..i])| % 320 + |chunks[i]| >= 320
  }

  /** Byte by byte: as long as every chunk does, the frames are the input cut every 320 bytes, and what is
      pending is the rest of it. */
  lemma FramesAreTheInput(pcm: seq<Byte>, extra: seq<Byte>, chunks: seq<seq<Byte>>)
    requires |pcm| == PCM_SIZE && |extra| == FRAME_BYTES
    requires forall c | c in chunks :: c != [] && |c| % 2 == 0
    requires forall i | 0 <= i < |chunks| :: Completes(chunks, i)
    requires Run(Opened(pcm, extra), chunks).Some?
    ensures var s, all := Run(Opened(pcm, extra), chunks).value, Joined(chunks);
      && |s.frames| == |all| / 320
      && (forall i | 0 <= i < |s.frames| :: s.frames[i] == all[320 * i..320 * i + 320])
      && s.extra[..s.extraLen] == all[320 * |s.frames|..]
  {
    hide Run, Joined, Flat;
    forall i | 0 <= i < |chunks| ensures GuardedAt(chunks, i) {
      assert Completes(chunks, i);
    }
    RunIsWholeIffGuarded(pcm, extra, chunks);
    var s := Run(Opened(pcm, extra), chunks).value;
    FlatLength(s.frames);
    forall i | 0 <= i < |s.frames| ensures s.frames[i] == Joined(chunks)[320 * i..320 * i + 320] {
      FlatAt(s.frames, i);
      PrefixSlice(Flat(s.frames), s.Pending(), 320 * i, 320 * i + 320);
    }
    PrefixRest(Flat(s.frames), s.Pending());
  }

  lemma PrefixSlice(a: seq<Byte>, b: seq<Byte>, i: nat, j: nat)
    requires i <= j <= |a|
    ensures (a + b)[i..j] == a[i..j]
  {}

  lemma PrefixRest(a: seq<Byte>, b: seq<Byte>)
    ensures (a + b)[|a|..] == b
  {}

  lemma {:induction false} FlatAt(frames: seq<seq<Byte>>, i: nat)
    requires i < |frames| && forall f | f in frames :: |f| == FRAME_BYTES
    ensures |Flat(frames)| == 320 * |frames| && Flat(frames)[320 * i..320 * i + 320] == frames[i]
  {
    var n := |frames| - 1;
    var before := frames[..n];
    assert frames[n] in frames;
    FlatLength(before);
    if i < n {
      FlatAt(before, i);
      PrefixSlice(Flat(before), frames[n], 320 * i, 320 * i + 320);
    }
  }

  lemma EmptyRun(pcm: seq<Byte>, extra: seq<Byte>)
    requires |pcm| == PCM_SIZE && |extra| == FRAME_BYTES
    ensures Guarded([]) && Whole(Opened(pcm, extra), []) && Excess(Opened(pcm, extra), []) == 0
  {}

  lemma JoinedSplit(chunks: seq<seq<Byte>>)
    requires chunks != []
    ensures Joined(chunks) == Joined(chunks[..|chunks|-1]) + chunks[|chunks|-1]
  {}

  lemma StepWhole(s: Framer, before: seq<seq<Byte>>, chunks: seq<seq<Byte>>, last: seq<Byte>)
    requires s.Shaped() && s.isOpen && EvenFrames(s) && Samples(last) && InBounds(s, last)
    requires chunks == before + [last] && Joined(chunks) == Joined(before) + last
    requires Excess(s, before) >= 0
    requires Guarded(before) ==> Excess(s, before) == 0
    requires !Guarded(before) ==> Excess(s, before) > 0
    requires Whole(s, before) <==> Guarded(before)
    requires Guarded(chunks) <==> Guarded(before) && GuardedAt(chunks, |before|)
    requires |Flat(Write(s, last).frames)| + 2 * Write(s, last).counted
             == |Flat(s.frames)| + 2 * s.counted + |last| + (if Short(s, last) then 2 * s.counted else 0)
    ensures var t := Write(s, last);
      && Excess(t, chunks) >= 0
      && (Guarded(chunks) ==> Excess(t, chunks) == 0)
      && (!Guarded(chunks) ==> Excess(t, chunks) > 0)
      && (Whole(t, chunks) <==> Guarded(chunks))
  {
    hide Write, InBounds, Guarded, Flat, Joined, GuardedAt;
    var t := Write(s, last);
    if Guarded(before) {
      PendingIsRemainder(s, before);
      GuardMeans(s, before, chunks, last);
      if Short(s, last) {
        ShortWrite(s, last);
      } else {
        FullWrite(s, last);
      }
    }
    assert t.Synced() ==> |t.Stream()| == |Flat(t.frames)| + 2 * t.counted;
  }

  lemma GuardMeans(s: Framer, before: seq<seq<Byte>>, chunks: seq<seq<Byte>>, last: seq<Byte>)
    requires chunks == before + [last] && |last| % 2 == 0
    requires |Joined(before)| % FRAME_BYTES == 2 * s.counted
    ensures GuardedAt(chunks, |before|) <==> Guard(s, last)
  {
    hide Joined;
    assert chunks[..|before|] == before;
  }

  // ---------------------------------------------------------------------------------------------
  // The audio alone

  /** What the file believes to be pending after some chunks, which their lengths alone decide. */
  function CountAfter(chunks: seq<seq<Byte>>): (n: nat) {
    if chunks == [] then 0
    else
      var before, c := CountAfter(chunks[..|chunks|-1]), NumSamples(chunks[|chunks|-1]);
      if before + c < FRAME_SAMPLES then before + c + before else (before + c) % FRAME_SAMPLES
  }

  /** By that count chunk `i` completes a frame. */
  predicate CompletesFrame(chunks: seq<seq<Byte>>, i: nat)
    requires i < |chunks|
  {
    CountAfter(chunks[..i]) + NumSamples(chunks[i]) >= FRAME_SAMPLES
  }

  predicate SoundAt(chunks: seq<seq<Byte>>, i: nat)
    requires i < |chunks|
  {
    CompletesFrame(chunks, i) ==> Guarded(chunks[..i])
  }

  /** No chunk completes a frame once the guard was broken. */
  predicate NoFrameAfterBreak(chunks: seq<seq<Byte>>) { forall i | 0 <= i < |chunks| :: SoundAt(chunks, i) }

  lemma NoFrameSplit(chunks: seq<seq<Byte>>)
    requires chunks != []
    ensures var n := |chunks| - 1;
      NoFrameAfterBreak(chunks) <==> NoFrameAfterBreak(chunks[..n]) && SoundAt(chunks, n)
  {
    hide CountAfter, Guarded;
    var n := |chunks| - 1;
    forall i | 0 <= i < n ensures SoundAt(chunks, i) <==> SoundAt(chunks[..n], i) {
      assert chunks[..n][..i] == chunks[..i];
    }
    hide SoundAt;
    if NoFrameAfterBreak(chunks) {
      forall i | 0 <= i < n ensures SoundAt(chunks[..n], i) {
        assert SoundAt(chunks, i);
      }
    }
    if NoFrameAfterBreak(chunks[..n]) && SoundAt(chunks, n) {
      forall i | 0 <= i < |chunks| ensures SoundAt(chunks, i) {
        if i < n {
          assert SoundAt(chunks[..n], i);
        }
      }
    }
  }

  /** A short write puts the chunk behind what is pending, whatever the count. */
  lemma ShortWriteAppends(s: Framer, chunk: seq<Byte>)
    requires s.Shaped() && s.isOpen && Samples(chunk) && InBounds(s, chunk) && Short(s, chunk)
    ensures Write(s, chunk).Stream() == s.Stream() + chunk
    ensures Write(s, chunk).extraLen == s.extraLen + |chunk|
    ensures Write(s, chunk).counted == NumSamples(chunk) + 2 * s.counted
  {
    hide Flat;
    var t := Write(s, chunk);
    assert t.Pending() == s.Pending() + chunk;
    Associate(Flat(s.frames), s.Pending(), chunk);
  }

  /** A full write brings count and bytes together again; frames and pending bytes are then as many as
      the count said, so more than there were when it said too many. */
  lemma FullWriteLength(s: Framer, chunk: seq<Byte>)
    requires s.Shaped() && s.isOpen && Samples(chunk) && InBounds(s, chunk) && !Short(s, chunk)
    requires s.extraLen <= 2 * s.counted
    ensures var t := Write(s, chunk);
      && t.extraLen == 2 * t.counted && t.counted == (NumSamples(chunk) + s.counted) % FRAME_SAMPLES
      && |t.Stream()| == |Flat(s.frames)| + 2 * s.counted + |chunk|
  {
    hide Flat, MainBuffer, Frames;
    ExcessGrows(s, chunk);
  }

  /** The state of a run, told by the lengths: the count, and whether the audio is still right. */
  ghost predicate Told(s: Framer, chunks: seq<seq<Byte>>) {
    && s.Shaped() && s.counted == CountAfter(chunks) && s.extraLen <= 2 * s.counted
    && |s.Stream()| >= |Joined(chunks)|
    && if NoFrameAfterBreak(chunks)
       then s.Stream() == Joined(chunks) && (!Guarded(chunks) ==> s.extraLen < 2 * s.counted)
       else |s.Stream()| > |Joined(chunks)|
  }

  lemma ToldStep(s: Framer, before: seq<seq<Byte>>, chunks: seq<seq<Byte>>, last: seq<Byte>)
    requires s.isOpen && Samples(last) && s.Shaped() && InBounds(s, last) && Told(s, before)
    requires chunks == before + [last] && Joined(chunks) == Joined(before) + last
    requires Guarded(before) ==> Whole(s, before)
    requires Guarded(chunks) ==> Guarded(before) && Guard(s, last)
    requires Guarded(before) && Guard(s, last) ==> Guarded(chunks)
    requires NoFrameAfterBreak(chunks) <==> NoFrameAfterBreak(before) && SoundAt(chunks, |before|)
    ensures Told(Write(s, last), chunks)
  {
    assert chunks[..|before|] == before && chunks[..|chunks|-1] == before;
    assert CompletesFrame(chunks, |before|) <==> !Short(s, last);
    hide Flat, Guarded, NoFrameAfterBreak, Joined;
    if Short(s, last) {
      assert CountAfter(chunks) == s.counted + NumSamples(last) + s.counted;
      hide CountAfter;
      ShortWriteAppends(s, last);
      hide Write, InBounds;
    } else {
      assert CountAfter(chunks) == (s.counted + NumSamples(last)) % FRAME_SAMPLES;
      hide CountAfter;
      FullWriteLength(s, last);
      if Guarded(before) {
        FullWrite(s, last);
      }
      hide Write, InBounds;
    }
  }

  lemma {:induction false} RunIsTold(pcm: seq<Byte>, extra: seq<Byte>, chunks: seq<seq<Byte>>)
    requires |pcm| == PCM_SIZE && |extra| == FRAME_BYTES
    requires forall c | c in chunks :: Samples(c)
    requires Run(Opened(pcm, extra), chunks).Some?
    ensures Told(Run(Opened(pcm, extra), chunks).value, chunks)
    decreases |chunks|
  {
    hide Write, InBounds, Guarded, GuardedAt, SoundAt, NoFrameAfterBreak, Told, Flat, Short;
    if chunks == [] {
      NothingTold(pcm, extra);
    } else {
      var n := |chunks| - 1;
      var before, last := chunks[..n], chunks[n];
      assert forall c | c in before :: c in chunks;
      RunIsTold(pcm, extra, before);
      RunIsWholeIffGuarded(pcm, extra, before);
      var s := Run(Opened(pcm, extra), before).value;
      assert last in chunks && chunks == before + [last];
      GuardedSplit(chunks);
      NoFrameSplit(chunks);
      JoinedSplit(chunks);
      if Guarded(before) {
        PendingIsRemainder(s, before);
        GuardMeans(s, before, chunks, last);
      }
      ToldStep(s, before, chunks, last);
    }
  }

  lemma NothingTold(pcm: seq<Byte>, extra: seq<Byte>)
    requires |pcm| == PCM_SIZE && |extra| == FRAME_BYTES
    ensures Told(Opened(pcm, extra), [])
  {}

  /** The frames followed by the pending bytes are the input if and only if no chunk completed a frame
      once the guard was broken: short chunks on top of each other only do harm when more follows. */
  lemma AudioIsRightIff(pcm: seq<Byte>, extra: seq<Byte>, chunks: seq<seq<Byte>>)
    requires |pcm| == PCM_SIZE && |extra| == FRAME_BYTES
    requires forall c | c in chunks :: Samples(c)
    requires Run(Opened(pcm, extra), chunks).Some?
    ensures Run(Opened(pcm, extra), chunks).value.Stream() == Joined(chunks) <==> NoFrameAfterBreak(chunks)
  {
    hide Run, NoFrameAfterBreak, Guarded, CountAfter, Joined;
    RunIsTold(pcm, extra, chunks);
  }

  /** Closing emits what is pending and, when that is not nothing, the zeros that complete its frame. */
  lemma CloseEmitsPending(s: Framer)
    requires s.Shaped()
    ensures Flat(Close(s).frames) == s.Stream() + Zeros(if s.extraLen == 0 then 0 else FRAME_BYTES - s.extraLen)
    ensures |Close(s).frames| == |s.frames| + (if s.extraLen == 0 then 0 else 1)
  {
    var t := Close(s);
    if s.extraLen == 0 {
      assert s.Stream() == Flat(s.frames) + [];
      assert s.Stream() + Zeros(0) == s.Stream();
    } else {
      var rest := Zeros(FRAME_BYTES - s.extraLen);
      var padded := Copied(s.extra, s.extraLen, rest);
      assert padded == s.Pending() + rest;
      FlatOfSum(s.frames, Frames(padded, 1));
      FlatOfFrames(padded, 1);
      assert padded[..FRAME_BYTES] == padded;
      Associate(Flat(s.frames), s.Pending(), rest);
    }
  }

  /** Closing a file whose run was guarded: the encoder has had the input and, when that fills no
      whole number of frames, the zeros that complete the last one. */
  lemma CloseEmitsRemainder(s: Framer, chunks: seq<seq<Byte>>)
    requires Whole(s, chunks)
    ensures Flat(Close(s).frames)
         == Joined(chunks) + Zeros(if s.counted == 0 then 0 else FRAME_BYTES - 2 * s.counted)
    ensures |Close(s).frames| == |s.frames| + (if s.counted == 0 then 0 else 1)
  {
    hide Joined, Close;
    CloseEmitsPending(s);
  }

  /** 50, 50 and 60 samples are one frame. The second chunk breaks the guard, so the third is taken to
      complete a frame with 50 samples left over, and the frame ends in what the buffer held before. */
  lemma TwoShortChunksBreakTheStream(pcm: seq<Byte>, extra: seq<Byte>, a: seq<Byte>, b: seq<Byte>, c: seq<Byte>)
    requires |pcm| == PCM_SIZE && |extra| == FRAME_BYTES
    requires |a| == 100 && |b| == 100 && |c| == 120
    ensures var r := Run(Opened(pcm, extra), [a, b, c]);
      && r.Some? && r.value.Pending() == c[20..]
      && r.value.frames == [a + b + c[..20] + pcm[220..320]]
  {
    hide Frames;
    var s0 := Opened(pcm, extra);
    var s1 := Write(s0, a);
    var s2 := Write(s1, b);
    var s3 := Write(s2, c);
    TwoPending(s0, a, b);
    assert [a, b, c][..2] == [a, b] && [a, b][..1] == [a] && [a][..0] == [];
    assert Run(s0, []) == Some(s0) && Run(s0, [a]) == Some(s1) && Run(s0, [a, b]) == Some(s2);
    assert FullFrames(s2, c) == 1 && ExtraPos(s2, c) == 20;
    OneFrame(MainBuffer(s2, c));
    assert MainBuffer(s2, c)[..FRAME_BYTES] == a + b + c[..20] + pcm[220..320];
  }

  lemma TwoPending(s: Framer, a: seq<Byte>, b: seq<Byte>)
    requires s.Shaped() && s.isOpen && s.extraLen == 0 && s.counted == 0 && |a| == 100 && |b| == 100
    ensures var t := Write(Write(s, a), b);
      t.Pending() == a + b && t.counted == 150 && t.frames == s.frames && t.pcm == s.pcm && t.isOpen
  {}

  lemma OneFrame(buf: seq<Byte>)
    requires FRAME_BYTES <= |buf|
    ensures Frames(buf, 1) == [buf[..FRAME_BYTES]]
  {
    assert Frames(buf, 0) == [];
  }

  // ---------------------------------------------------------------------------------------------
  // The class

  class OggOpusFile {
    const pcmBuf: array<Byte>
    const extraPcmBuf: array<Byte>
    var isOpen: bool
    var extraSamplesFromLastChunk: nat
    var extraPcmBufLen: nat
    /** Frames handed to the encoder, in order. */
    var encoded: seq<seq<Byte>>

    ghost predicate Valid()
      reads this
    {
      && pcmBuf != extraPcmBuf && pcmBuf.Length == PCM_SIZE && extraPcmBuf.Length == FRAME_BYTES
      && extraPcmBufLen <= FRAME_BYTES
    }

    ghost function Model(): (s: Framer)
      requires Valid()
      reads this, pcmBuf, extraPcmBuf
      ensures s.Shaped()
    {
      Framer(isOpen, pcmBuf[..], extraPcmBuf[..], extraPcmBufLen, extraSamplesFromLastChunk, encoded)
    }

    constructor ()
      ensures Valid() && fresh(pcmBuf) && fresh(extraPcmBuf)
      ensures Model() == Opened(pcmBuf[..], extraPcmBuf[..]).(isOpen := false)
    {
      pcmBuf, extraPcmBuf := new Byte[PCM_SIZE], new Byte[FRAME_BYTES];
      isOpen, extraSamplesFromLastChunk, extraPcmBufLen, encoded := false, 0, 0, [];
    }

    method EncodeChunks(buf: array<Byte>, numFrames: nat)
      requires FRAME_BYTES * numFrames <= buf.Length
      modifies this`encoded
      ensures encoded == old(encoded) + Frames(buf[..], numFrames)
    {
      var j := 0;
      while j < numFrames
        invariant j <= numFrames && encoded == old(encoded) + Frames(buf[..], j)
      {
        assert buf[..][FRAME_BYTES * j..FRAME_BYTES * (j + 1)] == buf[FRAME_BYTES * j..FRAME_BYTES * (j + 1)];
        encoded := encoded + [buf[FRAME_BYTES * j..FRAME_BYTES * (j + 1)]];
        j := j + 1;
      }
    }

    method WriteChunk(chunk: seq<Byte>)
      requires Valid() && InBounds(Model(), chunk)
      modifies this, pcmBuf, extraPcmBuf
      ensures Valid() && Model() == Write(old(Model()), chunk)
    {
      hide Frames, Copied, MainBuffer;
      if chunk == [] || !isOpen {
        return;
      }
      var numSamples := |chunk| / 2 + extraSamplesFromLastChunk;
      if numSamples < FRAME_SAMPLES {
        CopyInto(extraPcmBuf, extraPcmBufLen, chunk);
        extraPcmBufLen := extraPcmBufLen + |chunk|;
        extraSamplesFromLastChunk := numSamples + extraSamplesFromLastChunk;
        return;
      }
      var numFullFrames := numSamples / FRAME_SAMPLES;
      var numBytesExtra := 2 * (numSamples % FRAME_SAMPLES);
      FillMainBuffer(chunk, numFullFrames, |chunk| - numBytesExtra);
      CopyInto(extraPcmBuf, 0, chunk[|chunk| - numBytesExtra..]);
      extraPcmBufLen := extraPcmBufLen + numBytesExtra;
      extraSamplesFromLastChunk := numBytesExtra / 2;
      EncodeChunks(pcmBuf, numFullFrames);
    }

    /** What was pending goes first, then the part of the chunk that completes the frames. */
    method FillMainBuffer(chunk: seq<Byte>, numFullFrames: nat, extraBytesPos: nat)
      requires Valid() && InBounds(Model(), chunk) && !Short(Model(), chunk)
      requires numFullFrames == FullFrames(Model(), chunk) && extraBytesPos == ExtraPos(Model(), chunk)
      modifies this`extraPcmBufLen, pcmBuf, extraPcmBuf
      ensures pcmBuf[..] == MainBuffer(old(Model()), chunk)
      ensures extraPcmBufLen == if extraSamplesFromLastChunk > 0 then 0 else old(extraPcmBufLen)
      ensures extraPcmBuf[..] == if extraSamplesFromLastChunk > 0
        then Copied(old(extraPcmBuf[..]), 0, Zeros(old(extraPcmBufLen))) else old(extraPcmBuf[..])
    {
      assert extraSamplesFromLastChunk == 0 ==> FRAME_BYTES * numFullFrames <= |chunk|;
      hide Frames, Copied, FullFrames, ExtraBytes;
      if extraSamplesFromLastChunk > 0 {
        CopyInto(pcmBuf, 0, extraPcmBuf[..extraPcmBufLen]);
        CopyInto(pcmBuf, extraPcmBufLen, chunk[..extraBytesPos]);
        CopyInto(extraPcmBuf, 0, Zeros(extraPcmBufLen));
        extraPcmBufLen := 0;
      } else {
        CopyInto(pcmBuf, 0, chunk[..FRAME_BYTES * numFullFrames]);
      }
    }

    method CloseFile()
      requires Valid()
      modifies this, extraPcmBuf
      ensures Valid() && Model() == Close(old(Model()))
    {
      if extraPcmBufLen > 0 {
        CopyInto(extraPcmBuf, extraPcmBufLen, Zeros(FRAME_BYTES - extraPcmBufLen));
        EncodeChunks(extraPcmBuf, 1);
      }
      isOpen := false;
    }
  }

  /** memcpy and memset. */
  method CopyInto(a: array<Byte>, at: nat, bytes: seq<Byte>)
    requires at + |bytes| <= a.Length
    modifies a
    ensures a[..] == Copied(old(a[..]), at, bytes)
  {
    var i := 0;
    while i < |bytes|
      invariant i <= |bytes|
      invariant forall k | 0 <= k < i :: a[at + k] == bytes[k]
      invariant forall k | 0 <= k < a.Length && !(at <= k < at + i) :: a[k] == old(a[k])
    {
      a[at + i] := bytes[i];
      i := i + 1;
    }
    assert a[at..at + i] == bytes;
    assert a[..] == a[..at] + a[at..at + i] + a[at + i..];
  }
}
