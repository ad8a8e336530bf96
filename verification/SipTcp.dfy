/** SIP over TCP: segments that hold part of a message are kept per connection until the rest
    arrives. */
module SipTcp {
  import opened Common
  import opened SipFraming
  import SafeBuffers

  // ---------------------------------------------------------------------------------------------
  // One stream

  /** The buffer of a stream and how much of it was parsed. */
  datatype Buffer = Buffer(bytes: seq<Byte>, offset: nat)

  const EMPTY_BUFFER := Buffer([], 0)

  /** One segment is appended and the unparsed part is parsed again; the messages found go out. */
  function Feed(b: Buffer, segment: seq<Byte>): (r: (Buffer, seq<seq<Byte>>))
    requires b.offset <= |b.bytes|
    ensures r.0.offset <= |r.0.bytes|
  {
    var bytes := b.bytes + segment;
    var parsed := Parse(bytes, b.offset, |bytes|);
    (Buffer(bytes, parsed.offset), parsed.messages)
  }

  function FeedAll(b: Buffer, segments: seq<seq<Byte>>): (r: (Buffer, seq<seq<Byte>>))
    requires b.offset <= |b.bytes|
    ensures r.0.offset <= |r.0.bytes|
    decreases |segments|
  {
    if segments == [] then (b, [])
    else
      var (n, messages) := Feed(b, segments[0]);
      var (m, more) := FeedAll(n, segments[1..]);
      (m, messages + more)
  }

  /** However a stream is cut into segments, feeding them finds the messages, and stops at the
      offset, of one parse of the whole. */
  lemma {:induction false} SegmentationIndependence(b: Buffer, segments: seq<seq<Byte>>)
    requires b.offset <= |b.bytes| && b.offset == Parse(b.bytes, 0, |b.bytes|).offset
    requires var whole := b.bytes + Join(segments); !Parse(whole, 0, |whole|).malformed
    ensures var (n, messages), whole := FeedAll(b, segments), b.bytes + Join(segments);
      && n.bytes == whole
      && n.offset == Parse(whole, 0, |whole|).offset
      && Parse(whole, 0, |whole|).messages == Parse(b.bytes, 0, |b.bytes|).messages + messages
    decreases |segments|
  {
    var whole := b.bytes + Join(segments);
    if segments == [] {
      assert whole == b.bytes;
      assert Parse(whole, 0, |whole|).messages + [] == Parse(whole, 0, |whole|).messages;
    } else {
      var bytes := b.bytes + segments[0];
      assert whole == bytes + Join(segments[1..]);
      ParseContinues(bytes, whole, 0);
      ParseContinues(b.bytes, bytes, 0);
      SegmentationIndependence(Feed(b, segments[0]).0, segments[1..]);
      AppendAssociates(Parse(b.bytes, 0, |b.bytes|).messages, Feed(b, segments[0]).1,
                       FeedAll(Feed(b, segments[0]).0, segments[1..]).1);
    }
  }

  lemma AppendAssociates<T>(a: seq<T>, b: seq<T>, c: seq<T>)
    ensures a + b + c == a + (b + c)
  {}

  /** Whole messages cut anywhere: exactly these messages come out, in order, and nothing is left. */
  lemma MessagesSurviveSegmentation(messages: seq<seq<Byte>>, segments: seq<seq<Byte>>)
    requires forall i | 0 <= i < |messages| :: IsMessage(messages[i])
    requires Join(segments) == Join(messages)
    ensures FeedAll(EMPTY_BUFFER, segments) == (Buffer(Join(messages), |Join(messages)|), messages)
  {
    var b := EMPTY_BUFFER;
    var whole := Join(messages);
    assert b.bytes + Join(segments) == whole && whole[0..] == whole;
    assert Parse(b.bytes, 0, |b.bytes|) == Parsed([], 0, false);
    MessagesComeBack(whole, 0, messages);
    SegmentationIndependence(b, segments);
    assert [] + FeedAll(b, segments).1 == FeedAll(b, segments).1;
  }

  /** Written messages with bodies of any length, cut anywhere, come out as they were written. */
  lemma WrittenMessagesSurviveSegmentation(messages: seq<SipMessage>, segments: seq<seq<Byte>>)
    requires forall i | 0 <= i < |messages| :: messages[i].Proper()
    requires Join(segments) == Join(AllBytes(messages))
    ensures FeedAll(EMPTY_BUFFER, segments).1 == AllBytes(messages)
    ensures FeedAll(EMPTY_BUFFER, segments).0.offset == |Join(segments)|
  {
    hide IsMessage;
    forall i | 0 <= i < |AllBytes(messages)| ensures IsMessage(AllBytes(messages)[i]) {
      WrittenIsMessage(messages[i]);
    }
    MessagesSurviveSegmentation(AllBytes(messages), segments);
  }

  // ---------------------------------------------------------------------------------------------
  // All streams

  datatype Connection = Connection(senderIp: nat, receiverIp: nat, senderPort: nat, receiverPort: nat)

  /** `beyond` is what lies in memory behind the captured packet. */
  datatype Segment = Segment(connection: Connection, seqNo: nat, payload: seq<Byte>, beyond: seq<Byte>)

  datatype Stream = Stream(connection: Connection, expecting: nat, lastSeqNo: nat, entryTime: int, buffer: Buffer)

  const EXPIRY_SEC := 60
  const MIN_START_LEN := 31

  const METHODS: seq<string> := [
    "INVITE", "ACK", "BYE", "SIP/2.0 200", "SIP/2.0 183 Session Progress", "REFER", "INFO", "SUBSCRIBE",
    "SIP/2.0 302 Moved Temporarily", "NOTIFY", "SIP/2.0 4", "SIP/2.0 5", "SIP/2.0 6", "CANCEL "]

  predicate StartsWith(payload: seq<Byte>, name: string) {
    |name| <= |payload| && forall i | 0 <= i < |name| :: payload[i] as int == name[i] as int
  }

  predicate StartsMessage(payload: seq<Byte>) {
    |payload| >= MIN_START_LEN && exists i | 0 <= i < |METHODS| :: StartsWith(payload, METHODS[i])
  }

  predicate IsDuplicate(streams: seq<Stream>, s: Segment) {
    exists i | 0 <= i < |streams| :: streams[i].connection == s.connection && streams[i].lastSeqNo >= s.seqNo
  }

  /** A stored stream never has parsed past its bytes. */
  type LiveStream = st: Stream | st.buffer.offset <= |st.buffer.bytes|
    witness Stream(Connection(0, 0, 0, 0), 0, 0, 0, EMPTY_BUFFER)

  /** A segment that starts a message is parsed where it lies; a stream is kept for what is left. */
  function Begin(s: Segment, now: int): (r: (seq<LiveStream>, seq<seq<Byte>>)) {
    var len := |s.payload|;
    var parsed := Parse(s.payload + s.beyond, 0, len);
    (if parsed.offset != len then [Stream(s.connection, s.seqNo + len, s.seqNo, now, Buffer(s.payload, parsed.offset))]
     else [],
     parsed.messages)
  }

  predicate Continues(st: Stream, s: Segment) { st.connection == s.connection && st.expecting == s.seqNo }

  function Continue(st: LiveStream, s: Segment): (r: (LiveStream, seq<seq<Byte>>)) {
    if Continues(st, s) then
      var (b, messages) := Feed(st.buffer, s.payload);
      (st.(buffer := b, expecting := st.expecting + |s.payload|), messages)
    else (st, [])
  }

  predicate Keep(st: Stream, now: int) {
    st.buffer.offset != |st.buffer.bytes| && now - st.entryTime < EXPIRY_SEC
  }

  /** The pass over all streams for a segment that starts no message. */
  function Walk(streams: seq<LiveStream>, s: Segment, now: int): (r: (seq<LiveStream>, seq<seq<Byte>>, bool)) {
    if streams == [] then ([], [], false)
    else
      var (st, messages) := Continue(streams[0], s);
      var (rest, more, matched) := Walk(streams[1..], s, now);
      ((if Keep(st, now) then [st] else []) + rest, messages + more, Continues(streams[0], s) || matched)
  }

  function TakeSegment(streams: seq<LiveStream>, s: Segment, now: int): (r: (seq<LiveStream>, seq<seq<Byte>>, bool)) {
    if IsDuplicate(streams, s) then (streams, [], true)
    else if StartsMessage(s.payload) then
      var (kept, messages) := Begin(s, now);
      (streams + kept, messages, true)
    else Walk(streams, s, now)
  }

  function RunTcp(streams: seq<LiveStream>, arrivals: seq<(Segment, int)>): (r: (seq<LiveStream>, seq<seq<Byte>>))
    decreases |arrivals|
  {
    if arrivals == [] then (streams, [])
    else
      var (n, messages, _) := TakeSegment(streams, arrivals[0].0, arrivals[0].1);
      var (m, more) := RunTcp(n, arrivals[1..]);
      (m, messages + more)
  }

  function OfConnection(streams: seq<LiveStream>, c: Connection): (r: seq<LiveStream>) {
    if streams == [] then []
    else (if streams[0].connection == c then [streams[0]] else []) + OfConnection(streams[1..], c)
  }

  lemma {:induction false} OfConnectionAppends(a: seq<LiveStream>, b: seq<LiveStream>, c: Connection)
    ensures OfConnection(a + b, c) == OfConnection(a, c) + OfConnection(b, c)
  {
    if a == [] {
      assert a + b == b;
    } else {
      assert (a + b)[1..] == a[1..] + b;
      OfConnectionAppends(a[1..], b, c);
    }
  }

  /** Only the streams of its own connection matter to a segment. */
  lemma {:induction false} WalkIsLocal(streams: seq<LiveStream>, s: Segment, now: int)
    ensures var all, own, c := Walk(streams, s, now), Walk(OfConnection(streams, s.connection), s, now), s.connection;
      OfConnection(all.0, c) == OfConnection(own.0, c) && all.1 == own.1 && all.2 == own.2
  {
    if streams == [] {
    } else {
      var c, rest := s.connection, Walk(streams[1..], s, now).0;
      WalkIsLocal(streams[1..], s, now);
      var st := Continue(streams[0], s).0;
      OfConnectionAppends(if Keep(st, now) then [st] else [], rest, c);
      if streams[0].connection == c {
        var own := OfConnection(streams, c);
        assert own[0] == streams[0] && own[1..] == OfConnection(streams[1..], c);
        OfConnectionAppends(if Keep(st, now) then [st] else [], Walk(own[1..], s, now).0, c);
      } else {
        assert OfConnection(streams, c) == OfConnection(streams[1..], c);
        assert [] + Walk(streams[1..], s, now).1 == Walk(streams[1..], s, now).1;
      }
    }
  }

  lemma {:induction false} DuplicateIsLocal(streams: seq<LiveStream>, s: Segment)
    ensures IsDuplicate(streams, s) <==> IsDuplicate(OfConnection(streams, s.connection), s)
  {
    if streams == [] {
    } else {
      DuplicateIsLocal(streams[1..], s);
      var own, rest := OfConnection(streams, s.connection), OfConnection(streams[1..], s.connection);
      assert IsDuplicate(streams, s) <==>
        (streams[0].connection == s.connection && streams[0].lastSeqNo >= s.seqNo) || IsDuplicate(streams[1..], s) by {
        assert forall i | 1 <= i < |streams| :: streams[i] == streams[1..][i-1];
      }
      if streams[0].connection == s.connection {
        assert own[0] == streams[0];
        assert forall i | 1 <= i < |own| :: own[i] == rest[i-1];
        assert forall i | 0 <= i < |rest| :: rest[i] == own[i+1];
      } else {
        assert own == rest;
      }
    }
  }

  function Payloads(arrivals: seq<(Segment, int)>): (r: seq<seq<Byte>>) {
    if arrivals == [] then [] else [arrivals[0].0.payload] + Payloads(arrivals[1..])
  }

  /** Continuation segments of connection `c`, each taking up where the one before it ended, none
      looking like the start of a message, all within the expiry time of `start`. */
  ghost predicate InSequence(arrivals: seq<(Segment, int)>, c: Connection, next: nat, start: int) {
    arrivals == [] ||
    (var (s, now) := arrivals[0];
     && s.connection == c && s.seqNo == next && !StartsMessage(s.payload) && now - start < EXPIRY_SEC
     && InSequence(arrivals[1..], c, next + |s.payload|, start))
  }

  /** No proper prefix of the stream ends exactly where a message ends. */
  ghost predicate NoCutAtMessageEnd(bytes: seq<Byte>, segments: seq<seq<Byte>>)
    decreases |segments|
  {
    segments == [] ||
    (Parse(bytes, 0, |bytes|).offset != |bytes| && NoCutAtMessageEnd(bytes + segments[0], segments[1..]))
  }

  /** At the first cut that does fall on the end of a message, if there is one, no whole message
      follows. */
  ghost predicate NothingBehindCut(bytes: seq<Byte>, segments: seq<seq<Byte>>)
    decreases |segments|
  {
    segments == [] ||
    if Parse(bytes, 0, |bytes|).offset == |bytes|
    then Parse(Join(segments), 0, |Join(segments)|).messages == []
    else NothingBehindCut(bytes + segments[0], segments[1..])
  }

  lemma {:induction false} UncutHasNothingBehind(bytes: seq<Byte>, segments: seq<seq<Byte>>)
    requires NoCutAtMessageEnd(bytes, segments)
    ensures NothingBehindCut(bytes, segments)
    decreases |segments|
  {
    if segments != [] {
      UncutHasNothingBehind(bytes + segments[0], segments[1..]);
    }
  }

  /** Parsing the rest of a buffer finds what parsing the rest by itself does. */
  lemma {:induction false} ParseShifts(whole: seq<Byte>, n: nat, start: nat)
    requires n + start <= |whole|
    ensures Parse(whole, n + start, |whole|).messages == Parse(whole[n..], start, |whole| - n).messages
    decreases |whole| - start
  {
    hide NextMessage;
    var rest := whole[n..];
    NextMessageFrom(whole, n, start);
    var r := NextMessage(rest, start, |rest|);
    if r.Complete? {
      ParseShifts(whole, n, r.end);
      assert rest[start..r.end] == whole[n + start..n + r.end];
    }
  }

  lemma NextMessageFrom(whole: seq<Byte>, n: nat, start: nat)
    requires n + start <= |whole|
    ensures var r := NextMessage(whole[n..], start, |whole| - n);
      NextMessage(whole, n + start, |whole|) == if r.Complete? then Complete(n + r.end) else r
  {
    hide NextMessage;
    NextMessageShifts(whole, n + start);
    NextMessageShifts(whole[n..], start);
    assert whole[n..][start..] == whole[n + start..];
  }

  /** What is behind a cut at the end of a message: all messages came before it exactly when the rest
      by itself holds none. */
  lemma BehindCut(bytes: seq<Byte>, rest: seq<Byte>)
    requires Parse(bytes, 0, |bytes|).offset == |bytes|
    requires var whole := bytes + rest; !Parse(whole, 0, |whole|).malformed
    ensures var whole := bytes + rest;
      Parse(whole, 0, |whole|).messages == Parse(bytes, 0, |bytes|).messages + Parse(rest, 0, |rest|).messages
  {
    hide Parse;
    var whole := bytes + rest;
    ParseContinues(bytes, whole, 0);
    ParseShifts(whole, |bytes|, 0);
    assert whole[|bytes|..] == rest;
  }

  /** A connection's one stream takes its next segment. */
  lemma StreamContinues(streams: seq<LiveStream>, st: LiveStream, s: Segment, now: int)
    requires OfConnection(streams, s.connection) == [st] && Continues(st, s)
    requires st.lastSeqNo < s.seqNo && !StartsMessage(s.payload)
    ensures var (n, messages, handled), st' := TakeSegment(streams, s, now), Continue(st, s).0;
      && handled
      && messages == Feed(st.buffer, s.payload).1
      && OfConnection(n, s.connection) == if Keep(st', now) then [st'] else []
  {
    DuplicateIsLocal(streams, s);
    WalkIsLocal(streams, s, now);
    var own: seq<LiveStream> := [st];
    var st' := Continue(st, s).0;
    assert Walk(own[1..], s, now) == ([], [], false);
    var kept: seq<LiveStream> := if Keep(st', now) then [st'] else [];
    assert Walk(own, s, now).0 == kept + [];
    assert kept + [] == kept;
    assert Continue(st, s).1 + [] == Continue(st, s).1;
    assert st'.connection == s.connection;
    assert kept != [] ==> kept[1..] == [];
  }

  /** Without a stream a segment that starts no message is lost. */
  lemma SegmentLost(streams: seq<LiveStream>, s: Segment, now: int)
    requires OfConnection(streams, s.connection) == [] && !StartsMessage(s.payload)
    ensures var (n, messages, handled) := TakeSegment(streams, s, now);
      !handled && messages == [] && OfConnection(n, s.connection) == []
  {
    DuplicateIsLocal(streams, s);
    WalkIsLocal(streams, s, now);
  }

  lemma {:induction false} RestLost(streams: seq<LiveStream>, c: Connection, arrivals: seq<(Segment, int)>, next: nat, start: int)
    requires OfConnection(streams, c) == [] && InSequence(arrivals, c, next, start)
    ensures RunTcp(streams, arrivals).1 == []
    decreases |arrivals|
  {
    if arrivals == [] {
    } else {
      var (s, now) := arrivals[0];
      SegmentLost(streams, s, now);
      RestLost(TakeSegment(streams, s, now).0, c, arrivals[1..], next + |s.payload|, start);
    }
  }

  /** A tracked stream: what came out before and what it still hands on are the messages of the whole
      stream if and only if no whole message follows the first cut at the end of a message. */
  lemma {:induction false} TrackedStream(streams: seq<LiveStream>, c: Connection, st: LiveStream, arrivals: seq<(Segment, int)>)
    requires OfConnection(streams, c) == [st] && st.connection == c
    requires st.buffer.offset == Parse(st.buffer.bytes, 0, |st.buffer.bytes|).offset != |st.buffer.bytes|
    requires InSequence(arrivals, c, st.expecting, st.entryTime) && st.lastSeqNo < st.expecting
    requires var whole := st.buffer.bytes + Join(Payloads(arrivals)); !Parse(whole, 0, |whole|).malformed
    ensures var bytes := st.buffer.bytes;
            var whole := bytes + Join(Payloads(arrivals));
      Parse(bytes, 0, |bytes|).messages + RunTcp(streams, arrivals).1 == Parse(whole, 0, |whole|).messages
      <==> NothingBehindCut(bytes, Payloads(arrivals))
    decreases |arrivals|
  {
    hide Parse, TakeSegment, StartsMessage, OfConnection;
    var b, bytes := st.buffer, st.buffer.bytes;
    if arrivals == [] {
      assert bytes + Join([]) == bytes;
      assert Parse(bytes, 0, |bytes|).messages + [] == Parse(bytes, 0, |bytes|).messages;
    } else {
      var (s, now) := arrivals[0];
      var payloads, rest := Payloads(arrivals), arrivals[1..];
      assert payloads == [s.payload] + Payloads(rest) && payloads[1..] == Payloads(rest);
      StreamContinues(streams, st, s, now);
      FeedStaysParsed(b, s.payload, Payloads(rest));
      var n, st', m := TakeSegment(streams, s, now).0, Continue(st, s).0, Feed(b, s.payload).1;
      var bytes' := bytes + s.payload;
      FeedAddsMessages(b, s.payload, Payloads(rest));
      AppendAssociates(Parse(bytes, 0, |bytes|).messages, m, RunTcp(n, rest).1);
      assert RunTcp(streams, arrivals).1 == m + RunTcp(n, rest).1;
      if st'.buffer.offset == |bytes'| {
        RestLost(n, c, rest, st'.expecting, st.entryTime);
        BehindCut(bytes', Join(Payloads(rest)));
        NothingBehind(bytes', Payloads(rest));
      } else {
        TrackedStream(n, c, st', rest);
      }
    }
  }

  lemma NothingBehind(bytes: seq<Byte>, segments: seq<seq<Byte>>)
    requires Parse(bytes, 0, |bytes|).offset == |bytes|
    ensures NothingBehindCut(bytes, segments) <==> Parse(Join(segments), 0, |Join(segments)|).messages == []
  {}

  lemma FeedAddsMessages(b: Buffer, segment: seq<Byte>, more: seq<seq<Byte>>)
    requires b.offset <= |b.bytes| && b.offset == Parse(b.bytes, 0, |b.bytes|).offset
    requires var whole := b.bytes + Join([segment] + more); !Parse(whole, 0, |whole|).malformed
    ensures var bytes := b.bytes + segment;
      Parse(bytes, 0, |bytes|).messages == Parse(b.bytes, 0, |b.bytes|).messages + Feed(b, segment).1
  {
    hide Parse;
    var bytes, whole := b.bytes + segment, b.bytes + Join([segment] + more);
    assert ([segment] + more)[1..] == more;
    assert whole == bytes + Join(more);
    ParseContinues(bytes, whole, 0);
    ParseContinues(b.bytes, bytes, 0);
  }

  /** After a segment the offset is again that of one parse of all bytes. */
  lemma FeedStaysParsed(b: Buffer, segment: seq<Byte>, more: seq<seq<Byte>>)
    requires b.offset <= |b.bytes| && b.offset == Parse(b.bytes, 0, |b.bytes|).offset
    requires var whole := b.bytes + Join([segment] + more); !Parse(whole, 0, |whole|).malformed
    ensures var n := Feed(b, segment).0;
      && n.offset == Parse(n.bytes, 0, |n.bytes|).offset
      && b.bytes + Join([segment] + more) == n.bytes + Join(more)
  {
    var bytes, whole := b.bytes + segment, b.bytes + Join([segment] + more);
    assert ([segment] + more)[1..] == more;
    assert whole == bytes + Join(more);
    ParseContinues(bytes, whole, 0);
    ParseContinues(b.bytes, bytes, 0);
  }

  /** The whole claim for one connection: its first segment starts a message and the others follow in
      sequence. Then the messages handed on are those of one parse of the whole stream, whatever other
      connections have streams stored, if and only if no whole message follows the first cut that falls
      on the end of a message. */
  lemma StreamIsDispatched(streams: seq<LiveStream>, first: Segment, start: int, arrivals: seq<(Segment, int)>)
    requires OfConnection(streams, first.connection) == [] && StartsMessage(first.payload)
    requires Confined(first.payload + first.beyond, |first.payload|)
    requires InSequence(arrivals, first.connection, first.seqNo + |first.payload|, start)
    requires var whole := first.payload + Join(Payloads(arrivals)); !Parse(whole, 0, |whole|).malformed
    ensures var whole := first.payload + Join(Payloads(arrivals));
      RunTcp(streams, [(first, start)] + arrivals).1 == Parse(whole, 0, |whole|).messages
      <==> NothingBehindCut(first.payload, Payloads(arrivals))
  {
    hide Parse, TakeSegment, OfConnection;
    var b := BeginTracks(streams, first, start);
    var n, c, bytes := TakeSegment(streams, first, start).0, first.connection, first.payload;
    StartIsLong(bytes);
    hide StartsMessage;
    assert ([(first, start)] + arrivals)[1..] == arrivals;
    assert RunTcp(streams, [(first, start)] + arrivals).1 == Parse(bytes, 0, |bytes|).messages + RunTcp(n, arrivals).1;
    if b.offset == |bytes| {
      RestLost(n, c, arrivals, first.seqNo + |bytes|, start);
      BehindCut(bytes, Join(Payloads(arrivals)));
      NothingBehind(bytes, Payloads(arrivals));
    } else {
      TrackedStream(n, c, OfConnection(n, c)[0], arrivals);
    }
  }

  lemma StartIsLong(payload: seq<Byte>)
    requires StartsMessage(payload)
    ensures |payload| >= MIN_START_LEN
  {}

  /** So it does when no cut falls on the end of a message. */
  lemma UncutStreamIsDispatched(streams: seq<LiveStream>, first: Segment, start: int, arrivals: seq<(Segment, int)>)
    requires OfConnection(streams, first.connection) == [] && StartsMessage(first.payload)
    requires Confined(first.payload + first.beyond, |first.payload|)
    requires InSequence(arrivals, first.connection, first.seqNo + |first.payload|, start)
    requires var whole := first.payload + Join(Payloads(arrivals)); !Parse(whole, 0, |whole|).malformed
    requires NoCutAtMessageEnd(first.payload, Payloads(arrivals))
    ensures var whole := first.payload + Join(Payloads(arrivals));
      RunTcp(streams, [(first, start)] + arrivals).1 == Parse(whole, 0, |whole|).messages
  {
    hide StartsMessage, Parse, InSequence, TakeSegment, NothingBehindCut, NoCutAtMessageEnd;
    UncutHasNothingBehind(first.payload, Payloads(arrivals));
    StreamIsDispatched(streams, first, start, arrivals);
  }

  /** The first segment is parsed where it lies, and leaves its bytes and offset behind. */
  lemma BeginTracks(streams: seq<LiveStream>, first: Segment, start: int) returns (b: Buffer)
    requires OfConnection(streams, first.connection) == [] && StartsMessage(first.payload)
    requires Confined(first.payload + first.beyond, |first.payload|)
    ensures b == Buffer(first.payload, Parse(first.payload, 0, |first.payload|).offset)
    ensures var (n, messages, _) := TakeSegment(streams, first, start);
      && messages == Parse(first.payload, 0, |first.payload|).messages
      && OfConnection(n, first.connection) == if b.offset == |b.bytes| then []
           else [Stream(first.connection, first.seqNo + |first.payload|, first.seqNo, start, b)]
  {
    hide StartsMessage;
    b := Buffer(first.payload, Parse(first.payload, 0, |first.payload|).offset);
    var kept := Begin(first, start).0;
    DuplicateIsLocal(streams, first);
    OfConnectionAppends(streams, kept, first.connection);
    ParseInBuffer(first.payload + first.beyond, 0, |first.payload|);
    assert (first.payload + first.beyond)[..|first.payload|] == first.payload;
    if kept != [] {
      assert kept[1..] == [];
      assert OfConnection(kept, first.connection) == [kept[0]] + OfConnection(kept[1..], first.connection);
    }
  }

  /** The same for written messages through the table: they come out one by one, as they were written. */
  lemma WrittenMessagesAreDispatched(streams: seq<LiveStream>, first: Segment, start: int, arrivals: seq<(Segment, int)>,
                                     messages: seq<SipMessage>)
    requires OfConnection(streams, first.connection) == [] && StartsMessage(first.payload)
    requires Confined(first.payload + first.beyond, |first.payload|)
    requires InSequence(arrivals, first.connection, first.seqNo + |first.payload|, start)
    requires forall i | 0 <= i < |messages| :: messages[i].Proper()
    requires first.payload + Join(Payloads(arrivals)) == Join(AllBytes(messages))
    ensures RunTcp(streams, [(first, start)] + arrivals).1 == AllBytes(messages)
       <==> NothingBehindCut(first.payload, Payloads(arrivals))
  {
    hide StartsMessage, InSequence, TakeSegment, RunTcp, OfConnection, Parse, NothingBehindCut;
    WrittenMessagesComeBack(messages);
    StreamIsDispatched(streams, first, start, arrivals);
  }

  // ---------------------------------------------------------------------------------------------
  // One segment at a time

  /** The beginnings that start a message, and the length a payload needs for it. */
  lemma StartsMessageIff(payload: seq<Byte>)
    ensures StartsMessage(payload) <==> (|payload| >= 31 && (
      || StartsWith(payload, "INVITE") || StartsWith(payload, "ACK") || StartsWith(payload, "BYE")
      || StartsWith(payload, "SIP/2.0 200") || StartsWith(payload, "SIP/2.0 183 Session Progress")
      || StartsWith(payload, "REFER") || StartsWith(payload, "INFO") || StartsWith(payload, "SUBSCRIBE")
      || StartsWith(payload, "SIP/2.0 302 Moved Temporarily") || StartsWith(payload, "NOTIFY")
      || StartsWith(payload, "SIP/2.0 4") || StartsWith(payload, "SIP/2.0 5") || StartsWith(payload, "SIP/2.0 6")
      || StartsWith(payload, "CANCEL ")))
  {
    hide StartsWith;
    assert METHODS[0] == "INVITE" && METHODS[1] == "ACK" && METHODS[2] == "BYE" && METHODS[3] == "SIP/2.0 200";
    assert METHODS[4] == "SIP/2.0 183 Session Progress" && METHODS[5] == "REFER" && METHODS[6] == "INFO";
    assert METHODS[7] == "SUBSCRIBE" && METHODS[8] == "SIP/2.0 302 Moved Temporarily" && METHODS[9] == "NOTIFY";
    assert METHODS[10] == "SIP/2.0 4" && METHODS[11] == "SIP/2.0 5" && METHODS[12] == "SIP/2.0 6" && METHODS[13] == "CANCEL ";
  }

  /** A segment not behind the start of a stored stream of its connection is dropped as a duplicate. */
  lemma DuplicateIsDropped(streams: seq<LiveStream>, s: Segment, now: int, i: nat)
    requires i < |streams| && streams[i].connection == s.connection && s.seqNo <= streams[i].lastSeqNo
    ensures TakeSegment(streams, s, now) == (streams, [], true)
  {}

  /** After a continuation segment only streams with bytes left to parse, less than sixty seconds old, are
      kept: those of before, and the ones it continued with its bytes added. */
  lemma {:induction false} WalkKeepsIff(streams: seq<LiveStream>, s: Segment, now: int, st: LiveStream)
    ensures st in Walk(streams, s, now).0 <==>
      && st.buffer.offset < |st.buffer.bytes| && now - st.entryTime < 60
      && exists i :: 0 <= i < |streams| && Continue(streams[i], s).0 == st
  {
    hide Continue;
    if streams == [] {
    } else {
      WalkKeepsIff(streams[1..], s, now, st);
      var first, rest := Continue(streams[0], s).0, Walk(streams[1..], s, now).0;
      assert Walk(streams, s, now).0 == (if Keep(first, now) then [first] else []) + rest;
      if i :| 0 <= i < |streams[1..]| && Continue(streams[1..][i], s).0 == st {
        assert Continue(streams[i+1], s).0 == st;
      }
      if i :| 0 <= i < |streams| && Continue(streams[i], s).0 == st {
        if i > 0 {
          assert Continue(streams[1..][i-1], s).0 == st;
        }
      }
    }
  }

  /** Where a continuation segment ends with a message, the stream is forgotten, and those that follow
      hand on nothing as long as none begins with one of the listed methods, which would start a new
      stream. */
  lemma CutAtMessageEndLosesRest(streams: seq<LiveStream>, st: LiveStream, s: Segment, now: int, arrivals: seq<(Segment, int)>)
    requires OfConnection(streams, s.connection) == [st] && Continues(st, s) && st.lastSeqNo < s.seqNo
    requires !StartsMessage(s.payload)
    requires var b := Feed(st.buffer, s.payload).0; b.offset == |b.bytes|
    requires InSequence(arrivals, s.connection, s.seqNo + |s.payload|, st.entryTime)
    ensures RunTcp(streams, [(s, now)] + arrivals).1 == Feed(st.buffer, s.payload).1
  {
    hide StartsMessage, Parse, InSequence, Walk;
    StreamContinues(streams, st, s, now);
    assert ([(s, now)] + arrivals)[1..] == arrivals;
    RestLost(TakeSegment(streams, s, now).0, s.connection, arrivals, s.seqNo + |s.payload|, st.entryTime);
    assert Feed(st.buffer, s.payload).1 + [] == Feed(st.buffer, s.payload).1;
  }

  /** A whole message that is not of the listed methods, in a segment of its own behind another one, is
      lost, although one parse of the stream would find it. */
  lemma MessageBehindCutIsLost(streams: seq<LiveStream>, a: Segment, b: Segment, start: int, now: int)
    requires OfConnection(streams, a.connection) == [] && b.connection == a.connection
    requires StartsMessage(a.payload) && !StartsMessage(b.payload) && IsMessage(a.payload) && IsMessage(b.payload)
    requires Confined(a.payload + a.beyond, |a.payload|)
    requires b.seqNo == a.seqNo + |a.payload| && now - start < EXPIRY_SEC
    ensures RunTcp(streams, [(a, start), (b, now)]).1 == [a.payload]
    ensures var whole := a.payload + b.payload; Parse(whole, 0, |whole|).messages == [a.payload, b.payload]
  {
    hide Parse, TakeSegment, OfConnection, StartsMessage, IsMessage;
    var whole, rest := a.payload + b.payload, [(b, now)];
    var buffer := BeginTracks(streams, a, start);
    JoinOne(a.payload);
    assert a.payload[0..] == a.payload && whole[0..] == whole;
    MessagesComeBack(a.payload, 0, [a.payload]);
    assert InSequence(rest[1..], a.connection, b.seqNo + |b.payload|, start);
    RestLost(TakeSegment(streams, a, start).0, a.connection, rest, b.seqNo, start);
    assert [(a, start), (b, now)][1..] == rest;
    assert [a.payload] + [] == [a.payload];
    JoinOne(b.payload);
    assert [a.payload, b.payload][1..] == [b.payload];
    MessagesComeBack(whole, 0, [a.payload, b.payload]);
  }

  lemma JoinOne(m: seq<Byte>)
    ensures Join([m]) == m
  {
    assert [m][1..] == [] && Join([]) == [];
    assert m + [] == m;
  }

  /** "INVITE sip:a " and "OPTIONS sip:a ". */
  const INVITE_HEAD: seq<Byte> := [73, 78, 86, 73, 84, 69, 32, 115, 105, 112, 58, 97, 32]
  const OPTIONS_HEAD: seq<Byte> := [79, 80, 84, 73, 79, 78, 83, 32, 115, 105, 112, 58, 97, 32]

  lemma InviteStarts()
    ensures StartsMessage(Bare(INVITE_HEAD))
  {
    assert StartsWith(Bare(INVITE_HEAD), METHODS[0]);
  }

  lemma OptionsDoesNotStart()
    ensures !StartsMessage(Bare(OPTIONS_HEAD))
  {
    var m := Bare(OPTIONS_HEAD);
    assert m[0] == 79;
    forall i | 0 <= i < |METHODS| ensures !StartsWith(m, METHODS[i]) {
      assert METHODS[i] != [] && METHODS[i][0] != 'O';
    }
  }

  /** An INVITE in one segment and an OPTIONS in the next: the OPTIONS never comes out. */
  lemma OptionsBehindInviteIsLost(c: Connection, seqNo: nat)
    ensures var invite, options := Bare(INVITE_HEAD), Bare(OPTIONS_HEAD);
            var a, b := Segment(c, seqNo, invite, []), Segment(c, seqNo + |invite|, options, []);
      && RunTcp([], [(a, 0), (b, 0)]).1 == [invite]
      && Parse(invite + options, 0, |invite + options|).messages == [invite, options]
  {
    hide StartsMessage, Parse, RunTcp, Bare, IsMessage, MatchesAt;
    BareIsMessage(INVITE_HEAD);
    BareIsMessage(OPTIONS_HEAD);
    InviteStarts();
    OptionsDoesNotStart();
    var invite, options := Bare(INVITE_HEAD), Bare(OPTIONS_HEAD);
    assert invite + [] == invite;
    InsideIsConfined(invite);
    MessageBehindCutIsLost([], Segment(c, seqNo, invite, []), Segment(c, seqNo + |invite|, options, []), 0, 0);
  }

  lemma InsideIsConfined(m: seq<Byte>)
    ensures Confined(m, |m|)
  {}

  // ---------------------------------------------------------------------------------------------
  // The classes

  class SipTcpStream {
    var tcpBuffer: SafeBuffers.SafeBuffer
    var offset: nat

    ghost predicate Valid()
      reads this, tcpBuffer, tcpBuffer.buffer
    {
      tcpBuffer.Valid() && offset <= tcpBuffer.size
    }

    ghost function Model(): Buffer
      reads this, tcpBuffer, tcpBuffer.buffer
      requires Valid()
    {
      Buffer(tcpBuffer.Contents(), offset)
    }

    constructor ()
      ensures Valid() && Model() == EMPTY_BUFFER
      ensures fresh(tcpBuffer)
    {
      tcpBuffer := new SafeBuffers.SafeBuffer();
      offset := 0;
    }

    /** The parse runs over the buffer's own memory, with its closing zero; that is as good as a
        parse of the stream's bytes alone. */
    method Receive(segment: seq<Byte>) returns (messages: seq<seq<Byte>>)
      requires Valid()
      modifies this, tcpBuffer
      ensures Valid()
      ensures Model() == Feed(old(Model()), segment).0 && messages == Feed(old(Model()), segment).1
    {
      tcpBuffer.Add(segment);
      if tcpBuffer.size == 0 {
        messages := [];
        return;
      }
      var mem := tcpBuffer.buffer[..];
      ZeroConfines(mem, tcpBuffer.size);
      ParseInBuffer(mem, offset, tcpBuffer.size);
      assert mem[..tcpBuffer.size] == tcpBuffer.Contents();
      var malformed;
      offset, messages, malformed := ParseSipStream(mem, offset, tcpBuffer.size);
    }
  }

  class SipTcpStreams {
    var streams: seq<LiveStream>

    constructor ()
      ensures streams == []
    {
      streams := [];
    }

    static method ContinueStream(stream: LiveStream, s: Segment) returns (st: LiveStream, found: seq<seq<Byte>>, matched: bool)
      ensures (st, found) == Continue(stream, s) && matched == Continues(stream, s)
    {
      st, found, matched := stream, [], false;
      if st.connection == s.connection && st.expecting == s.seqNo {
        var bytes := st.buffer.bytes + s.payload;
        var offset, malformed;
        offset, found, malformed := ParseSipStream(bytes, st.buffer.offset, |bytes|);
        st := st.(buffer := Buffer(bytes, offset), expecting := st.expecting + |s.payload|);
        matched := true;
      }
    }

    /** The pass over the stored streams: the matching one takes the segment, finished and old ones
        are erased. */
    method ContinueStreams(s: Segment, now: int) returns (messages: seq<seq<Byte>>, result: bool)
      modifies this
      ensures (streams, messages, result) == Walk(old(streams), s, now)
    {
      messages, result := [], false;
      var kept: seq<LiveStream> := [];
      var i := 0;
      JoinedNothing(Walk(streams, s, now));
      assert streams[0..] == streams;
      while i < |streams|
        invariant i <= |streams| && streams == old(streams)
        invariant Walk(streams, s, now) == Joined(kept, messages, result, Walk(streams[i..], s, now))
      {
        JoinedStep(kept, messages, result, streams, i, s, now);
        var st, found, matched := ContinueStream(streams[i], s);
        messages := messages + found;
        result := result || matched;
        if !(st.buffer.offset == |st.buffer.bytes| || now - st.entryTime >= EXPIRY_SEC) {
          kept := kept + [st];
        }
        i := i + 1;
      }
      JoinedNothing((kept, messages, result));
      streams := kept;
    }

    method CheckDuplicate(s: Segment) returns (duplicate: bool)
      ensures duplicate == IsDuplicate(streams, s)
    {
      var i := 0;
      while i < |streams|
        invariant i <= |streams|
        invariant forall j | 0 <= j < i :: !(streams[j].connection == s.connection && streams[j].lastSeqNo >= s.seqNo)
      {
        if streams[i].connection == s.connection && streams[i].lastSeqNo >= s.seqNo {
          return true;
        }
        i := i + 1;
      }
      return false;
    }

    method StartStream(s: Segment, now: int) returns (messages: seq<seq<Byte>>)
      modifies this
      ensures streams == old(streams) + Begin(s, now).0 && messages == Begin(s, now).1
    {
      hide Parse;
      var len := |s.payload|;
      var offset, malformed;
      offset, messages, malformed := ParseSipStream(s.payload + s.beyond, 0, len);
      if offset != len {
        streams := streams + [Stream(s.connection, s.seqNo + len, s.seqNo, now, Buffer(s.payload, offset))];
      }
      assert old(streams) + [] == old(streams);
    }

    method TrySipTcp(s: Segment, now: int) returns (messages: seq<seq<Byte>>, result: bool)
      modifies this
      ensures (streams, messages, result) == TakeSegment(old(streams), s, now)
    {
      hide StartsMessage;
      var duplicate := CheckDuplicate(s);
      if duplicate {
        return [], true;
      }
      if StartsMessage(s.payload) {
        messages := StartStream(s, now);
        return messages, true;
      }
      messages, result := ContinueStreams(s, now);
    }
  }

  ghost function Joined(kept: seq<LiveStream>, messages: seq<seq<Byte>>, result: bool,
                        rest: (seq<LiveStream>, seq<seq<Byte>>, bool)): (seq<LiveStream>, seq<seq<Byte>>, bool) {
    (kept + rest.0, messages + rest.1, result || rest.2)
  }

  lemma JoinedNothing(rest: (seq<LiveStream>, seq<seq<Byte>>, bool))
    ensures Joined([], [], false, rest) == rest
    ensures Joined(rest.0, rest.1, rest.2, ([], [], false)) == rest
  {
    assert [] + rest.0 == rest.0 && [] + rest.1 == rest.1;
    assert rest.0 + [] == rest.0 && rest.1 + [] == rest.1;
  }

  lemma JoinedStep(kept: seq<LiveStream>, messages: seq<seq<Byte>>, result: bool,
                   streams: seq<LiveStream>, i: nat, s: Segment, now: int)
    requires i < |streams|
    ensures var (st, found) := Continue(streams[i], s);
      Joined(kept, messages, result, Walk(streams[i..], s, now))
        == Joined(if Keep(st, now) then kept + [st] else kept, messages + found, result || Continues(streams[i], s),
                  Walk(streams[i+1..], s, now))
  {
    hide Parse;
    var (st, found) := Continue(streams[i], s);
    var rest := Walk(streams[i+1..], s, now);
    assert streams[i..][0] == streams[i] && streams[i..][1..] == streams[i+1..];
    assert kept + ([st] + rest.0) == kept + [st] + rest.0 && kept + ([] + rest.0) == kept + rest.0;
    assert messages + (found + rest.1) == messages + found + rest.1;
  }
}
