/** Which side of a call is kept: reports leave marks on the tape, and afterwards every chunk is blanked
    or not by the marks whose interval holds its arrival. */
module DirectionSelector {
  import opened Common

  datatype Keep = KeepBoth | KeepLocal | KeepRemote | KeepNone | KeepInvalid

  datatype LocalSide = SideUnknown | Side1 | Side2 | SideBoth | SideInvalid

  /** `next` is where the interval ends, 0 while it is open. */
  datatype Mark = Mark(timestamp: nat, next: nat, keep: Keep)

  datatype Chunk = Chunk(arrival: nat, channel: nat, audio: seq<Byte>)

  // ---------------------------------------------------------------------------------------------
  // Reports

  /** A report reads the clock for its mark and once more to end the interval before. */
  datatype Report = Report(keep: Keep, now: nat, again: nat)

  function Reported(marks: seq<Mark>, r: Report): (m: seq<Mark>) {
    (if marks == [] then [] else marks[|marks| - 1 := marks[|marks| - 1].(next := r.again)])
    + [Mark(r.now, 0, r.keep)]
  }

  function MarksOf(reports: seq<Report>): (m: seq<Mark>)
    ensures |m| == |reports|
  {
    if reports == [] then [] else Reported(MarksOf(reports[..|reports|-1]), reports[|reports|-1])
  }

  /** The side kept before the first report, when the remote party's area code asks for one. */
  function WithFallback(marks: seq<Mark>, fallback: Option<Keep>): (m: seq<Mark>) {
    if fallback.None? then marks
    else [Mark(1, if marks == [] then 0 else marks[0].timestamp, fallback.value)] + marks
  }

  // ---------------------------------------------------------------------------------------------
  // Chunks

  predicate Holds(m: Mark, t: nat) { m.timestamp != 0 && m.timestamp <= t && (t < m.next || m.next == 0) }

  /** Blanked is the channel of the side that is not kept. */
  predicate Blanks(keep: Keep, side: LocalSide, channel: nat) {
    match side
    case Side1 => (keep == KeepLocal && channel == 2) || (keep == KeepRemote && channel == 1)
    case Side2 => (keep == KeepLocal && channel == 1) || (keep == KeepRemote && channel == 2)
    case _ => false
  }

  function Silence(audio: seq<Byte>): (r: seq<Byte>) { seq(|audio|, _ => 0) }

  predicate SomeMarkBlanks(marks: seq<Mark>, side: LocalSide, c: Chunk) {
    exists i :: 0 <= i < |marks| && Holds(marks[i], c.arrival) && Blanks(marks[i].keep, side, c.channel)
  }

  function Selected(marks: seq<Mark>, side: LocalSide, c: Chunk): (r: Chunk) {
    if SomeMarkBlanks(marks, side, c) then c.(audio := Silence(c.audio)) else c
  }

  // ---------------------------------------------------------------------------------------------
  // The latest mark wins

  /** The clock is positive and does not go back. */
  ghost predicate Timely(reports: seq<Report>) {
    && (forall i | 0 <= i < |reports| :: 1 <= reports[i].now <= reports[i].again)
    && (forall i, j | 0 <= i < j < |reports| :: reports[i].again <= reports[j].now)
  }

  /** Every report but the first, which ends no interval, read the same time twice. */
  ghost predicate OneReading(reports: seq<Report>) {
    forall i | 1 <= i < |reports| :: reports[i].again == reports[i].now
  }

  lemma {:induction false} MarksAt(reports: seq<Report>, i: nat)
    requires i < |reports|
    ensures MarksOf(reports)[i]
         == Mark(reports[i].now, if i + 1 < |reports| then reports[i+1].again else 0, reports[i].keep)
    decreases |reports|
  {
    var n := |reports| - 1;
    if i < n {
      MarksAt(reports[..n], i);
    }
  }

  /** What the reports mean: the one last made at or before `t` decides, the fallback before the first. */
  function Meant(reports: seq<Report>, fallback: Option<Keep>, t: nat): (k: Option<Keep>) {
    if reports == [] then (if t >= 1 then fallback else None)
    else if reports[|reports|-1].now <= t then Some(reports[|reports|-1].keep)
    else Meant(reports[..|reports|-1], fallback, t)
  }

  /** The index of that report. */
  function LastAt(reports: seq<Report>, t: nat): (i: nat)
    ensures i <= |reports|
    ensures i > 0 ==> reports[i-1].now <= t
    ensures forall j | i <= j < |reports| :: t < reports[j].now
  {
    if reports == [] then 0
    else if reports[|reports|-1].now <= t then |reports|
    else LastAt(reports[..|reports|-1], t)
  }

  lemma {:induction false} MeantIsLast(reports: seq<Report>, fallback: Option<Keep>, t: nat)
    ensures var i := LastAt(reports, t);
      Meant(reports, fallback, t) == if i > 0 then Some(reports[i-1].keep) else if t >= 1 then fallback else None
  {
    if reports == [] {
    } else {
      MeantIsLast(reports[..|reports|-1], fallback, t);
    }
  }

  /** A report's mark holds at `t` exactly when the report is the last one at or before it. */
  lemma MarkHoldsWhenLast(reports: seq<Report>, t: nat, i: nat)
    requires Timely(reports) && OneReading(reports) && i < |reports|
    ensures Holds(MarksOf(reports)[i], t) <==> LastAt(reports, t) == i + 1
  {
    hide MarksOf;
    MarksAt(reports, i);
    var last := LastAt(reports, t);
    if i + 1 < |reports| {
      assert reports[i+1].again == reports[i+1].now >= 1;
    }
    if last > i + 1 {
      assert reports[i+1].now <= t by {
        if i + 1 < last - 1 {
          assert reports[i+1].again <= reports[last-1].now;
        }
      }
    }
  }

  lemma FallbackHoldsBeforeFirst(reports: seq<Report>, keep: Keep, t: nat)
    requires Timely(reports)
    ensures Holds(WithFallback(MarksOf(reports), Some(keep))[0], t) <==> t >= 1 && LastAt(reports, t) == 0
  {
    hide MarksOf;
    if reports != [] {
      MarksAt(reports, 0);
      var last := LastAt(reports, t);
      if last > 1 {
        assert reports[0].again <= reports[last-1].now;
      }
    }
  }

  /** With one clock reading a report, a chunk is blanked exactly when what was meant at its arrival
      blanks its channel: from the first mark on exactly one mark holds, the last at or before it. */
  lemma LatestMarkWins(reports: seq<Report>, fallback: Option<Keep>, side: LocalSide, c: Chunk)
    requires Timely(reports) && OneReading(reports)
    ensures var meant := Meant(reports, fallback, c.arrival);
      SomeMarkBlanks(WithFallback(MarksOf(reports), fallback), side, c)
      <==> meant.Some? && Blanks(meant.value, side, c.channel)
  {
    hide MarksOf, Holds, Blanks, Meant, WithFallback;
    var marks, t := WithFallback(MarksOf(reports), fallback), c.arrival;
    var last := LastAt(reports, t);
    MeantIsLast(reports, fallback, t);
    forall i | 0 <= i < |marks|
      ensures Holds(marks[i], t) ==> Meant(reports, fallback, t) == Some(marks[i].keep)
    {
      OnlyMeantHolds(reports, fallback, t, i);
    }
    if Meant(reports, fallback, t).Some? {
      var i := MeantHolds(reports, fallback, t);
      assert Holds(marks[i], t);
    }
  }

  /** What that means for the sound: with side 1 local, keeping the local side silences channel 2 and keeping
      the remote side channel 1; with side 2 local the other way round; anything else leaves it alone. */
  lemma ChunkIsSilencedIff(reports: seq<Report>, fallback: Option<Keep>, side: LocalSide, c: Chunk)
    requires Timely(reports) && OneReading(reports)
    ensures var out := Selected(WithFallback(MarksOf(reports), fallback), side, c);
      var last := LastAt(reports, c.arrival);
      var keep := if last > 0 then Some(reports[last-1].keep) else if c.arrival >= 1 then fallback else None;
      var remote := (side == Side1 && c.channel == 2) || (side == Side2 && c.channel == 1);
      var local := (side == Side1 && c.channel == 1) || (side == Side2 && c.channel == 2);
      var silenced := (remote && keep == Some(KeepLocal)) || (local && keep == Some(KeepRemote));
      && out.arrival == c.arrival && out.channel == c.channel && |out.audio| == |c.audio|
      && (silenced ==> forall i | 0 <= i < |out.audio| :: out.audio[i] == 0)
      && (!silenced ==> out.audio == c.audio)
  {
    hide MarksOf, WithFallback, SomeMarkBlanks, LastAt;
    LatestMarkWins(reports, fallback, side, c);
    MeantIsLast(reports, fallback, c.arrival);
  }

  lemma FallbackShift(reports: seq<Report>, fallback: Option<Keep>)
    ensures var marks := WithFallback(MarksOf(reports), fallback);
            var k := if fallback.Some? then 1 else 0;
      && |marks| == |reports| + k
      && (forall i | 0 <= i < |reports| :: marks[i + k] == MarksOf(reports)[i])
      && (fallback.Some? ==> marks[0].keep == fallback.value)
  {
    hide MarksOf;
  }

  lemma OnlyMeantHolds(reports: seq<Report>, fallback: Option<Keep>, t: nat, i: nat)
    requires Timely(reports) && OneReading(reports)
    requires i < |WithFallback(MarksOf(reports), fallback)|
    ensures var m := WithFallback(MarksOf(reports), fallback)[i];
      Holds(m, t) ==> Meant(reports, fallback, t) == Some(m.keep)
  {
    hide MarksOf, Holds, Meant, WithFallback;
    MeantIsLast(reports, fallback, t);
    FallbackShift(reports, fallback);
    if fallback.Some? && i == 0 {
      FallbackHoldsBeforeFirst(reports, fallback.value, t);
    } else {
      var j := if fallback.Some? then i - 1 else i;
      MarkHoldsWhenLast(reports, t, j);
      MarksAt(reports, j);
      assert WithFallback(MarksOf(reports), fallback)[j + (if fallback.Some? then 1 else 0)] == MarksOf(reports)[j];
    }
  }

  lemma MeantHolds(reports: seq<Report>, fallback: Option<Keep>, t: nat) returns (i: nat)
    requires Timely(reports) && OneReading(reports) && Meant(reports, fallback, t).Some?
    ensures var marks := WithFallback(MarksOf(reports), fallback);
      i < |marks| && Holds(marks[i], t) && Meant(reports, fallback, t) == Some(marks[i].keep)
  {
    hide MarksOf, Holds, Meant, WithFallback;
    var last := LastAt(reports, t);
    MeantIsLast(reports, fallback, t);
    FallbackShift(reports, fallback);
    if last == 0 {
      i := 0;
      FallbackHoldsBeforeFirst(reports, fallback.value, t);
    } else {
      var k := if fallback.Some? then 1 else 0;
      i := last - 1 + k;
      MarkHoldsWhenLast(reports, t, last - 1);
      MarksAt(reports, last - 1);
      assert WithFallback(MarksOf(reports), fallback)[last - 1 + k] == MarksOf(reports)[last - 1];
    }
  }

  // ---------------------------------------------------------------------------------------------
  // Two readings of the clock

  ghost predicate Exclusive(marks: seq<Mark>) {
    forall i, j, t: nat | 0 <= i < j < |marks| :: !(Holds(marks[i], t) && Holds(marks[j], t))
  }

  /** No time belongs to two reports exactly when no report saw the clock move between its readings. */
  lemma ExclusiveIffOneReading(reports: seq<Report>)
    requires Timely(reports)
    ensures Exclusive(MarksOf(reports)) <==> OneReading(reports)
  {
    hide MarksOf, Holds;
    if OneReading(reports) {
      forall i, j, t: nat | 0 <= i < j < |reports|
        ensures !(Holds(MarksOf(reports)[i], t) && Holds(MarksOf(reports)[j], t))
      {
        MarkHoldsWhenLast(reports, t, i);
        MarkHoldsWhenLast(reports, t, j);
      }
    }
    if Exclusive(MarksOf(reports)) {
      forall i | 1 <= i < |reports| ensures reports[i].again == reports[i].now {
        OverlapAt(reports, i);
        var t := reports[i].now;
        assert !(Holds(MarksOf(reports)[i-1], t) && Holds(MarksOf(reports)[i], t));
      }
    }
  }

  lemma OverlapAt(reports: seq<Report>, i: nat)
    requires Timely(reports) && 1 <= i < |reports|
    ensures var t := reports[i].now;
      reports[i].again != t ==> Holds(MarksOf(reports)[i-1], t) && Holds(MarksOf(reports)[i], t)
  {
    hide MarksOf;
    MarksAt(reports, i - 1);
    MarksAt(reports, i);
    assert reports[i-1].again <= reports[i].now;
    if i + 1 < |reports| {
      assert reports[i].again <= reports[i+1].now;
    }
  }

  // ---------------------------------------------------------------------------------------------
  // The tape

  class AudioTape {
    var audioDirectionMarks: seq<Mark>
    var localSide: LocalSide

    constructor ()
      ensures audioDirectionMarks == MarksOf([]) && localSide == SideUnknown
    {
      audioDirectionMarks, localSide := [], SideUnknown;
    }

    /** The keep-direction event. */
    method KeepDirection(keep: Keep, now: nat, again: nat, ghost reports: seq<Report>)
      requires audioDirectionMarks == MarksOf(reports)
      modifies this`audioDirectionMarks
      ensures audioDirectionMarks == MarksOf(reports + [Report(keep, now, again)])
    {
      ghost var all := reports + [Report(keep, now, again)];
      assert all[..|all|-1] == reports;
      if |audioDirectionMarks| > 0 {
        var last := |audioDirectionMarks| - 1;
        audioDirectionMarks := audioDirectionMarks[last := audioDirectionMarks[last].(next := again)];
      }
      audioDirectionMarks := audioDirectionMarks + [Mark(now, 0, keep)];
    }

    method KeepFallback(keep: Keep)
      modifies this`audioDirectionMarks
      ensures audioDirectionMarks == WithFallback(old(audioDirectionMarks), Some(keep))
    {
      var next := 0;
      if |audioDirectionMarks| > 0 {
        next := audioDirectionMarks[0].timestamp;
      }
      audioDirectionMarks := [Mark(1, next, keep)] + audioDirectionMarks;
    }

    method BlankChunk(c: Chunk) returns (r: Chunk)
      ensures r == Selected(audioDirectionMarks, localSide, c)
    {
      hide Holds, Blanks;
      r := c;
      var i := 0;
      while i < |audioDirectionMarks|
        invariant i <= |audioDirectionMarks|
        invariant r == Selected(audioDirectionMarks[..i], localSide, c)
      {
        var m := audioDirectionMarks[i];
        SelectedStep(audioDirectionMarks, localSide, c, i);
        if Holds(m, c.arrival) && Blanks(m.keep, localSide, c.channel) {
          r := r.(audio := Silence(r.audio));
        }
        i := i + 1;
      }
      assert audioDirectionMarks[..i] == audioDirectionMarks;
    }

    /** Every chunk of the file, one after the other. */
    method BlankFile(chunks: seq<Chunk>) returns (out: seq<Chunk>)
      ensures |out| == |chunks|
      ensures forall i | 0 <= i < |chunks| :: out[i] == Selected(audioDirectionMarks, localSide, chunks[i])
    {
      out := [];
      while |out| < |chunks|
        invariant |out| <= |chunks|
        invariant forall i | 0 <= i < |out| :: out[i] == Selected(audioDirectionMarks, localSide, chunks[i])
      {
        var r := BlankChunk(chunks[|out|]);
        out := out + [r];
      }
    }
  }

  lemma SelectedStep(marks: seq<Mark>, side: LocalSide, c: Chunk, i: nat)
    requires i < |marks|
    ensures SomeMarkBlanks(marks[..i+1], side, c)
       <==> SomeMarkBlanks(marks[..i], side, c) || (Holds(marks[i], c.arrival) && Blanks(marks[i].keep, side, c.channel))
  {
    hide Holds, Blanks;
    var m := marks[..i+1];
    assert m == marks[..i] + [marks[i]];
    if SomeMarkBlanks(marks[..i], side, c) {
      var k :| 0 <= k < i && Holds(marks[..i][k], c.arrival) && Blanks(marks[..i][k].keep, side, c.channel);
      assert m[k] == marks[k];
    }
    if Holds(marks[i], c.arrival) && Blanks(marks[i].keep, side, c.channel) {
      assert m[i] == marks[i];
    }
  }
}
