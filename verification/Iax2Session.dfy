/** One IAX2 call (RFC 5456): what it reports to the recorder for each voice packet. */
module Iax2Session {
  import opened Common

  /** Call legs are named by address and call number. */
  datatype Key = Key(ip: nat, callNo: nat)

  datatype CallState = Waiting | Linked | Up

  /** What a chunk of audio has from its packet, and the codec in force. */
  datatype Sound = Sound(codec: nat, payload: seq<bv8>, arrival: int)

  /** What the source's callbacks receive. The metadata reported with the start is not modelled. */
  datatype Event = EtStart | EtStop | Audio(channel: nat, sequenceNumber: nat, timestamp: nat, sound: Sound)

  datatype Packet = Packet(source: Key, destIp: nat, full: bool, payloadType: nat, timestamp: nat, arrival: int, payload: seq<bv8>)

  datatype Session = Session(
    srcKey: Key,
    destKey: Option<Key>,
    state: CallState,
    started: bool,
    stopped: bool,
    numPackets: nat,
    anyPacket: bool,
    side1: Option<(nat, nat)>,
    side2: Option<nat>,
    codec: nat,
    seq1: nat,
    seq2: nat,
    lastUpdated: int)

  function NewSession(key: Key, now: int): (s: Session) {
    Session(key, None, Waiting, false, false, 0, false, None, None, 0, 1, 1, now)
  }

  /** The next number of a channel: from 65534 back to 1. */
  function Succ(n: nat): (m: nat) { if n + 1 >= 65535 then 1 else n + 1 }

  /** Every codec ends up with 160: the cases of the source fall through. */
  const RTP_TIMESTAMP := 160

  function Stop(s: Session): (r: (Session, seq<Event>)) {
    if s.started && !s.stopped then (s.(stopped := true), [EtStop]) else (s, [])
  }

  /** The packet after the bookkeeping of its side, and the channel it belongs to; None for a
      duplicate. The clock of side 1 is the last packet's destination and time. */
  function ChooseSide(s: Session, p: Packet, rewrite: bool): (r: (Session, Option<nat>)) {
    match s.side1
    case None => (s.(side1 := Some((p.destIp, p.timestamp))), Some(1))
    case Some((destIp, time)) =>
      if p.destIp == destIp then
        if rewrite then (s.(side1 := Some((destIp, (time + 20) % 0x1_0000_0000))), Some(1))
        else if p.timestamp == time then (s, None)
        else (s.(side1 := Some((destIp, p.timestamp))), Some(1))
      else match s.side2
        case None => (s.(side2 := Some(p.timestamp)), Some(2))
        case Some(time2) =>
          if rewrite then (s.(side2 := Some((p.timestamp + time2 + 20) % 0x1_0000_0000)), Some(2))
          else if p.timestamp == time2 then (s, None)
          else (s.(side2 := Some(p.timestamp)), Some(2))
  }

  /** A packet that counts: the first one starts the call. */
  function Report(s: Session, p: Packet, channel: nat): (r: (Session, seq<Event>)) {
    var counted := s.(numPackets := s.numPackets + 1);
    var (begun, start) := if counted.numPackets == 1 then (counted.(started := true), [EtStart]) else (counted, []);
    var numbered := if channel == 1 then begun.(seq1 := Succ(begun.seq1)) else begun.(seq2 := Succ(begun.seq2));
    var number := if channel == 1 then numbered.seq1 else numbered.seq2;
    if numbered.started then
      var sound := Sound(numbered.codec, p.payload, p.arrival);
      (numbered.(lastUpdated := p.arrival), start + [Audio(channel, number, number * RTP_TIMESTAMP, sound)])
    else (numbered, start)
  }

  /** AddIax2Packet: the new session, whether the packet was in order, and what was reported. */
  function AddPacket(s: Session, p: Packet, rewrite: bool): (r: (Session, bool, seq<Event>)) {
    if s.state != Linked && s.state != Up then (s, false, [])
    else if !s.anyPacket && !p.full then (s, true, [])
    else
      var first := if !s.anyPacket then s.(state := Up) else s;
      var heard := first.(anyPacket := true, codec := if p.full then p.payloadType else first.codec);
      match ChooseSide(heard, p, rewrite)
      case (sided, None) => (sided, true, [])
      case (sided, Some(channel)) =>
        var (reported, events) := Report(sided, p, channel);
        (reported, true, events)
  }

  // ---------------------------------------------------------------------------------------------
  // What a recorder may see

  /** A recorder that follows the events of one call: what it has seen so far, and the last number
      of each channel. */
  datatype Follower = Follower(seen: Phase, last1: nat, last2: nat)
  datatype Phase = Nothing | Running | Finished

  const FIRST := Follower(Nothing, 1, 1)

  /** None is an event out of order: anything before the start, a second start, anything after the
      stop, a number that is not the next one, or a wrong timestamp. */
  function Follow(f: Follower, e: Event): (r: Option<Follower>) {
    match e
    case EtStart => if f.seen == Nothing then Some(f.(seen := Running)) else None
    case EtStop => if f.seen == Running then Some(f.(seen := Finished)) else None
    case Audio(channel, number, timestamp, _) =>
      if f.seen != Running || timestamp != 160 * number then None
      else if channel == 1 && number == Succ(f.last1) then Some(f.(last1 := number))
      else if channel == 2 && number == Succ(f.last2) then Some(f.(last2 := number))
      else None
  }

  function FollowAll(f: Follower, events: seq<Event>): (r: Option<Follower>)
    decreases |events|
  {
    if events == [] then Some(f)
    else match Follow(f, events[0])
      case None => None
      case Some(n) => FollowAll(n, events[1..])
  }

  function PhaseOf(s: Session): Phase { if s.stopped then Finished else if s.started then Running else Nothing }

  /** The follower that agrees with a session. */
  function FollowerOf(s: Session): Follower { Follower(PhaseOf(s), s.seq1, s.seq2) }

  ghost predicate ValidSession(s: Session) {
    && (s.stopped ==> s.started)
    && (s.started <==> s.numPackets > 0)
    && 1 <= s.seq1 <= 65534 && 1 <= s.seq2 <= 65534
    && (s.numPackets > 0 ==> s.anyPacket)
    && (s.state == Up ==> s.anyPacket)
  }

  lemma FollowOne(f: Follower, e: Event)
    ensures FollowAll(f, [e]) == Follow(f, e)
  {
    assert [e][1..] == [];
  }

  lemma FollowTwo(f: Follower, e: Event, e': Event)
    requires Follow(f, e).Some?
    ensures FollowAll(f, [e, e']) == Follow(Follow(f, e).value, e')
  {
    assert [e, e'][1..] == [e'];
    FollowOne(Follow(f, e).value, e');
  }

  lemma ReportFollows(s: Session, p: Packet, channel: nat)
    requires ValidSession(s) && !s.stopped && s.anyPacket && (channel == 1 || channel == 2)
    ensures var (n, events) := Report(s, p, channel);
      && ValidSession(n) && !n.stopped && n.srcKey == s.srcKey && n.destKey == s.destKey
      && FollowAll(FollowerOf(s), events) == Some(FollowerOf(n))
  {
    var number := Succ(if channel == 1 then s.seq1 else s.seq2);
    var audio := Audio(channel, number, number * RTP_TIMESTAMP, Sound(s.codec, p.payload, p.arrival));
    if s.started {
      FollowOne(FollowerOf(s), audio);
      assert [] + [audio] == [audio];
    } else {
      FollowTwo(FollowerOf(s), EtStart, audio);
      assert [EtStart] + [audio] == [EtStart, audio];
    }
  }

  lemma ChooseSideKeeps(s: Session, p: Packet, rewrite: bool)
    ensures var (n, channel) := ChooseSide(s, p, rewrite);
      && n == s.(side1 := n.side1, side2 := n.side2)
      && (channel.Some? ==> channel.value == 1 || channel.value == 2)
  {}

  /** A packet given to a call that is not stopped is reported in order. */
  lemma AddPacketFollows(s: Session, p: Packet, rewrite: bool)
    requires ValidSession(s) && !s.stopped
    ensures var (n, _, events) := AddPacket(s, p, rewrite);
      && ValidSession(n) && !n.stopped && n.srcKey == s.srcKey && n.destKey == s.destKey
      && FollowAll(FollowerOf(s), events) == Some(FollowerOf(n))
  {
    hide ChooseSide, Report, FollowAll;
    assert FollowAll(FollowerOf(s), []) == Some(FollowerOf(s)) by { FollowNone(FollowerOf(s)); }
    if (s.state == Linked || s.state == Up) && (s.anyPacket || p.full) {
      var first := if !s.anyPacket then s.(state := Up) else s;
      var heard := first.(anyPacket := true, codec := if p.full then p.payloadType else first.codec);
      ChooseSideKeeps(heard, p, rewrite);
      var (sided, channel) := ChooseSide(heard, p, rewrite);
      if channel.Some? {
        ReportFollows(sided, p, channel.value);
      }
    }
  }

  lemma FollowNone(f: Follower)
    ensures FollowAll(f, []) == Some(f)
  {}

  lemma StopFollows(s: Session)
    requires ValidSession(s)
    ensures var (n, events) := Stop(s);
      && ValidSession(n) && n.srcKey == s.srcKey && n.destKey == s.destKey && (n.started ==> n.stopped)
      && FollowAll(FollowerOf(s), events) == Some(FollowerOf(n))
  {
    FollowOne(FollowerOf(s), EtStop);
  }

  lemma {:induction false} FollowSum(f: Follower, a: seq<Event>, b: seq<Event>)
    requires FollowAll(f, a).Some?
    ensures FollowAll(f, a + b) == FollowAll(FollowAll(f, a).value, b)
    decreases |a|
  {
    if a == [] {
      assert a + b == b;
    } else {
      assert (a + b)[1..] == a[1..] + b;
      FollowSum(Follow(f, a[0]).value, a[1..], b);
    }
  }

  /** Read out of an accepted sequence: the start is the first event and only that, the stop the last
      and only that. */
  lemma {:induction false} AcceptedOrder(f: Follower, events: seq<Event>, i: nat)
    requires FollowAll(f, events).Some? && i < |events|
    ensures events[i] == EtStart ==> i == 0 && f.seen == Nothing
    ensures i == 0 && f.seen == Nothing ==> events[i] == EtStart
    ensures events[i] == EtStop ==> i == |events| - 1
    ensures f.seen != Finished
    decreases |events|
  {
    var n := Follow(f, events[0]).value;
    if i > 0 {
      AcceptedOrder(n, events[1..], i - 1);
    } else if |events| > 1 {
      AcceptedOrder(n, events[1..], 0);
    }
  }

  /** Audio of one channel, in order. */
  function ChannelNumbers(events: seq<Event>, channel: nat): (r: seq<nat>) {
    if events == [] then []
    else (if events[0].Audio? && events[0].channel == channel then [events[0].sequenceNumber] else [])
         + ChannelNumbers(events[1..], channel)
  }

  lemma ChannelNumbersCons(events: seq<Event>, channel: nat)
    requires events != []
    ensures var (all, rest) := (ChannelNumbers(events, channel), ChannelNumbers(events[1..], channel));
      if events[0].Audio? && events[0].channel == channel
      then all != [] && all[0] == events[0].sequenceNumber && all[1..] == rest
      else all == rest
  {}

  /** The numbers of a channel count on from the last one. */
  ghost predicate CountsFrom(last: nat, numbers: seq<nat>)
    decreases |numbers|
  {
    numbers == [] || (numbers[0] == Succ(last) && CountsFrom(numbers[0], numbers[1..]))
  }

  lemma {:induction false} AcceptedNumbers(f: Follower, events: seq<Event>)
    requires FollowAll(f, events).Some?
    ensures CountsFrom(f.last1, ChannelNumbers(events, 1)) && CountsFrom(f.last2, ChannelNumbers(events, 2))
    ensures forall i | 0 <= i < |events| && events[i].Audio? :: events[i].timestamp == 160 * events[i].sequenceNumber
    decreases |events|
  {
    if events == [] {
    } else {
      AcceptedNumbers(Follow(f, events[0]).value, events[1..]);
      ChannelNumbersCons(events, 1);
      ChannelNumbersCons(events, 2);
    }
  }

  // ---------------------------------------------------------------------------------------------
  // What is recorded of a call

  /** One packet in the fields it finds: which channel it is on, when it is passed over, and otherwise the
      one chunk it becomes. */
  lemma PacketTells(s: Session, p: Packet, rewrite: bool)
    requires s.started <==> s.numPackets > 0
    ensures var (n, inOrder, events) := AddPacket(s, p, rewrite);
      var early := !s.anyPacket && !p.full;
      var own := s.side1.None? || p.destIp == s.side1.value.0;
      var again := !rewrite && (if own then s.side1 == Some((p.destIp, p.timestamp)) else s.side2 == Some(p.timestamp));
      var last := if own then s.seq1 else s.seq2;
      var number := if last >= 65534 then 1 else last + 1;
      var codec := if p.full then p.payloadType else s.codec;
      var heard := s.(anyPacket := true, codec := codec, state := if s.anyPacket then s.state else Up);
      && (s.state == Waiting ==> !inOrder && n == s && events == [])
      && (s.state != Waiting ==> inOrder)
      && (s.state != Waiting && early ==> n == s && events == [])
      && (s.state != Waiting && !early && again ==> n == heard && events == [])
      && (s.state != Waiting && !early && !again ==>
            && events == (if s.numPackets == 0 then [EtStart] else [])
                 + [Audio(if own then 1 else 2, number, 160 * number, Sound(codec, p.payload, p.arrival))]
            && n == heard.(started := true, numPackets := s.numPackets + 1, lastUpdated := p.arrival,
                           side1 := n.side1, side2 := n.side2, seq1 := n.seq1, seq2 := n.seq2)
            && (own ==> n.seq1 == number && n.seq2 == s.seq2 && n.side2 == s.side2 && n.side1.Some?
                        && n.side1.value.0 == p.destIp)
            && (!own ==> n.seq2 == number && n.seq1 == s.seq1 && n.side1 == s.side1 && n.side2.Some?)
            && (!rewrite && own ==> n.side1.value.1 == p.timestamp)
            && (!rewrite && !own ==> n.side2.value == p.timestamp))
  {
    hide ChooseSide, Report;
    var heard := s.(anyPacket := true, codec := if p.full then p.payloadType else s.codec,
                    state := if s.anyPacket then s.state else Up);
    SideTells(heard, p, rewrite);
    var (sided, channel) := ChooseSide(heard, p, rewrite);
    if channel.Some? {
      ReportTells(sided, p, channel.value);
    }
  }

  lemma SideTells(s: Session, p: Packet, rewrite: bool)
    ensures var (n, channel) := ChooseSide(s, p, rewrite);
      var own := s.side1.None? || p.destIp == s.side1.value.0;
      var again := !rewrite && (if own then s.side1 == Some((p.destIp, p.timestamp)) else s.side2 == Some(p.timestamp));
      && (again ==> channel.None? && n == s)
      && (!again ==>
            && channel == Some(if own then 1 else 2)
            && (if own then n == s.(side1 := n.side1) && n.side1.Some? && n.side1.value.0 == p.destIp
                else n == s.(side2 := n.side2) && n.side2.Some?)
            && (!rewrite && own ==> n.side1.value.1 == p.timestamp)
            && (!rewrite && !own ==> n.side2.value == p.timestamp))
  {}

  lemma ReportTells(s: Session, p: Packet, channel: nat)
    requires (s.started <==> s.numPackets > 0) && (channel == 1 || channel == 2)
    ensures var (n, events) := Report(s, p, channel);
      var last := if channel == 1 then s.seq1 else s.seq2;
      var number := if last >= 65534 then 1 else last + 1;
      && events == (if s.numPackets == 0 then [EtStart] else [])
           + [Audio(channel, number, 160 * number, Sound(s.codec, p.payload, p.arrival))]
      && n == s.(started := true, numPackets := s.numPackets + 1, lastUpdated := p.arrival,
                 seq1 := if channel == 1 then number else s.seq1, seq2 := if channel == 1 then s.seq2 else number)
  {}

  /** The packets of one call, one after the other. */
  function RunPackets(s: Session, packets: seq<Packet>, rewrite: bool): (r: (Session, seq<Event>))
    decreases |packets|
  {
    if packets == [] then (s, [])
    else
      var (n, _, events) := AddPacket(s, packets[0], rewrite);
      var (last, more) := RunPackets(n, packets[1..], rewrite);
      (last, events + more)
  }

  /** A call begins to be heard with its first full frame. */
  function Talk(packets: seq<Packet>): (r: seq<Packet>) {
    if packets == [] || packets[0].full then packets else Talk(packets[1..])
  }

  /** Mini frames have the codec of the full frame before them. */
  function Coded(packets: seq<Packet>, codec: nat): (r: seq<Packet>) {
    if packets == [] then []
    else
      var c := if packets[0].full then packets[0].payloadType else codec;
      [packets[0].(payloadType := c)] + Coded(packets[1..], c)
  }

  /** The packets to an address, or those to any other. */
  function Sent(packets: seq<Packet>, ip: nat, toIt: bool): (r: seq<Packet>) {
    if packets == [] then []
    else (if (packets[0].destIp == ip) == toIt then [packets[0]] else []) + Sent(packets[1..], ip, toIt)
  }

  /** Without those that have the time of the one before. */
  function Fresh(packets: seq<Packet>, before: Option<nat>): (r: seq<Packet>) {
    if packets == [] then []
    else (if before == Some(packets[0].timestamp) then [] else [packets[0]]) + Fresh(packets[1..], Some(packets[0].timestamp))
  }

  /** With rewriting on repeated times are not looked at. */
  function Counted(packets: seq<Packet>, before: Option<nat>, rewrite: bool): (r: seq<Packet>) {
    if rewrite then packets else Fresh(packets, before)
  }

  function SoundsOf(packets: seq<Packet>): (r: seq<Sound>) {
    if packets == [] then []
    else [Sound(packets[0].payloadType, packets[0].payload, packets[0].arrival)] + SoundsOf(packets[1..])
  }

  /** The sound on a channel. */
  function Track(events: seq<Event>, channel: nat): (r: seq<Sound>) {
    if events == [] then []
    else (if events[0].Audio? && events[0].channel == channel then [events[0].sound] else []) + Track(events[1..], channel)
  }

  lemma {:induction false} TrackSum(a: seq<Event>, b: seq<Event>, channel: nat)
    ensures Track(a + b, channel) == Track(a, channel) + Track(b, channel)
    decreases |a|
  {
    if a == [] {
      assert a + b == b;
    } else {
      assert (a + b)[1..] == a[1..] + b;
      TrackSum(a[1..], b, channel);
    }
  }

  lemma TrackOne(e: Event, channel: nat)
    ensures Track([e], channel) == if e.Audio? && e.channel == channel then [e.sound] else []
  {
    assert [e][1..] == [];
  }

  /** A call under way. */
  predicate InTalk(s: Session) {
    s.state != Waiting && s.anyPacket && s.started && s.numPackets > 0 && s.side1.Some?
  }

  /** One packet of a running call becomes sound of its side, unless it repeats the last time of it. */
  lemma RunningPacket(s: Session, p: Packet, rewrite: bool)
    requires InTalk(s)
    ensures var (n, _, events) := AddPacket(s, p, rewrite);
      var own := p.destIp == s.side1.value.0;
      var codec := if p.full then p.payloadType else s.codec;
      var again := !rewrite && (if own then s.side1.value.1 == p.timestamp else s.side2 == Some(p.timestamp));
      var sound := if again then [] else [Sound(codec, p.payload, p.arrival)];
      && InTalk(n) && n.codec == codec && n.side1.value.0 == s.side1.value.0
      && Track(events, 1) == (if own then sound else [])
      && Track(events, 2) == (if own then [] else sound)
      && (!rewrite ==> n.side1.value.1 == (if own then p.timestamp else s.side1.value.1))
      && (!rewrite ==> n.side2 == (if own then s.side2 else Some(p.timestamp)))
      && (forall i | 0 <= i < |events| :: events[i].Audio?)
  {
    hide AddPacket, Track;
    PacketTells(s, p, rewrite);
    assert Track([], 1) == [] && Track([], 2) == [] by { TrackNone(); }
    var (n, _, events) := AddPacket(s, p, rewrite);
    if events != [] {
      assert events == [events[0]];
      TrackOne(events[0], 1);
      TrackOne(events[0], 2);
    }
  }

  lemma TrackNone()
    ensures Track([], 1) == [] && Track([], 2) == []
  {}

  lemma {:induction false} RunningCallIsHeard(s: Session, packets: seq<Packet>, rewrite: bool)
    requires InTalk(s)
    ensures var events := RunPackets(s, packets, rewrite).1;
      var (coded, ip, time) := (Coded(packets, s.codec), s.side1.value.0, s.side1.value.1);
      && Track(events, 1) == SoundsOf(Counted(Sent(coded, ip, true), Some(time), rewrite))
      && Track(events, 2) == SoundsOf(Counted(Sent(coded, ip, false), s.side2, rewrite))
      && (forall i | 0 <= i < |events| :: events[i].Audio?)
    decreases |packets|
  {
    var ip, time := s.side1.value.0, s.side1.value.1;
    hide AddPacket, InTalk;
    if packets != [] {
      RunningPacket(s, packets[0], rewrite);
      var (n, _, events) := AddPacket(s, packets[0], rewrite);
      RunningCallIsHeard(n, packets[1..], rewrite);
      var more := RunPackets(n, packets[1..], rewrite).1;
      TrackSum(events, more, 1);
      TrackSum(events, more, 2);
      var codec := if packets[0].full then packets[0].payloadType else s.codec;
      var first, rest := packets[0].(payloadType := codec), Coded(packets[1..], codec);
      HeadOfSide(first, rest, ip, true, Some(time), rewrite);
      HeadOfSide(first, rest, ip, false, s.side2, rewrite);
    }
  }

  /** What the first packet adds to a side. */
  lemma HeadOfSide(first: Packet, rest: seq<Packet>, ip: nat, toIt: bool, before: Option<nat>, rewrite: bool)
    ensures var mine, sound := (first.destIp == ip) == toIt, Sound(first.payloadType, first.payload, first.arrival);
      SoundsOf(Counted(Sent([first] + rest, ip, toIt), before, rewrite))
        == if !mine then SoundsOf(Counted(Sent(rest, ip, toIt), before, rewrite))
           else (if !rewrite && before == Some(first.timestamp) then [] else [sound])
                  + SoundsOf(Counted(Sent(rest, ip, toIt), Some(first.timestamp), rewrite))
  {
    assert ([first] + rest)[1..] == rest;
    var more := Sent(rest, ip, toIt);
    assert [] + more == more;
    assert ([first] + more)[1..] == more;
    var kept := Fresh(more, Some(first.timestamp));
    assert [] + kept == kept && ([first] + kept)[1..] == kept;
  }

  /** A linked call that has not been heard yet. */
  predicate Unheard(s: Session) {
    && s.state == Linked && !s.started && !s.stopped && s.numPackets == 0 && !s.anyPacket
    && s.side1.None? && s.side2.None? && s.seq1 == 1 && s.seq2 == 1
  }

  /** What is recorded of a linked call: nothing before its first full frame, which starts it; then channel 1
      has the packets to the address that frame went to, in order, and channel 2 those to any other,
      without the repeats of each side when times are not rewritten. */
  lemma {:induction false} CallIsHeard(s: Session, packets: seq<Packet>, rewrite: bool)
    requires Unheard(s)
    ensures var events, talk := RunPackets(s, packets, rewrite).1, Coded(Talk(packets), s.codec);
      if talk == [] then events == [] else
      && events != [] && events[0] == EtStart && (forall i | 1 <= i < |events| :: events[i].Audio?)
      && Track(events, 1) == SoundsOf(Counted(Sent(talk, talk[0].destIp, true), None, rewrite))
      && Track(events, 2) == SoundsOf(Counted(Sent(talk, talk[0].destIp, false), None, rewrite))
    decreases |packets|
  {
    hide AddPacket, Track, Sent, Fresh, SoundsOf, InTalk;
    if packets != [] {
      var p := packets[0];
      assert !p.full ==> AddPacket(s, p, rewrite) == (s, true, []) by { PacketTells(s, p, rewrite); }
      var (n, _, events) := AddPacket(s, p, rewrite);
      var more := RunPackets(n, packets[1..], rewrite).1;
      if p.full {
        FirstPacket(s, p, rewrite);
        RunningCallIsHeard(n, packets[1..], rewrite);
        FirstIsHeard(p, Coded(packets[1..], p.payloadType), rewrite);
        TrackSum(events, more, 1);
        TrackSum(events, more, 2);
      } else {
        CallIsHeard(s, packets[1..], rewrite);
        assert [] + more == more;
      }
    }
  }

  lemma FirstPacket(s: Session, p: Packet, rewrite: bool)
    requires Unheard(s) && p.full
    ensures var (n, _, events) := AddPacket(s, p, rewrite);
      && InTalk(n) && n.side1 == Some((p.destIp, n.side1.value.1)) && n.codec == p.payloadType && n.side2.None?
      && (!rewrite ==> n.side1.value.1 == p.timestamp)
      && events != [] && events[0] == EtStart && (forall i | 1 <= i < |events| :: events[i].Audio?)
      && Track(events, 1) == [Sound(p.payloadType, p.payload, p.arrival)] && Track(events, 2) == []
  {
    hide AddPacket, Track;
    PacketTells(s, p, rewrite);
    var (n, _, events) := AddPacket(s, p, rewrite);
    var audio := events[1];
    assert events == [EtStart] + [audio];
    TrackSum([EtStart], [audio], 1);
    TrackSum([EtStart], [audio], 2);
    TrackOne(EtStart, 1);
    TrackOne(EtStart, 2);
    TrackOne(audio, 1);
    TrackOne(audio, 2);
  }

  lemma FirstIsHeard(p: Packet, rest: seq<Packet>, rewrite: bool)
    ensures var talk, sound := [p] + rest, Sound(p.payloadType, p.payload, p.arrival);
      && SoundsOf(Counted(Sent(talk, p.destIp, true), None, rewrite))
           == [sound] + SoundsOf(Counted(Sent(rest, p.destIp, true), Some(p.timestamp), rewrite))
      && SoundsOf(Counted(Sent(talk, p.destIp, false), None, rewrite))
           == SoundsOf(Counted(Sent(rest, p.destIp, false), None, rewrite))
  {
    HeadOfSide(p, rest, p.destIp, true, None, rewrite);
    HeadOfSide(p, rest, p.destIp, false, None, rewrite);
  }

  /** The numbers of a channel, by place: 2 to 65534, then 1 to 65534 for ever. */
  lemma {:induction false} NumberAt(last: nat, numbers: seq<nat>, k: nat)
    requires CountsFrom(last, numbers) && 1 <= last <= 65534 && k < |numbers|
    ensures numbers[k] == 1 + (last + k) % 65534
    decreases k
  {
    if k > 0 {
      NumberAt(numbers[0], numbers[1..], k - 1);
    }
  }

  lemma {:induction false} RunFollows(s: Session, packets: seq<Packet>, rewrite: bool)
    requires ValidSession(s) && !s.stopped
    ensures var (n, events) := RunPackets(s, packets, rewrite);
      ValidSession(n) && FollowAll(FollowerOf(s), events) == Some(FollowerOf(n))
    decreases |packets|
  {
    hide AddPacket, ValidSession, FollowerOf, FollowAll;
    if packets == [] {
      FollowNone(FollowerOf(s));
    } else {
      AddPacketFollows(s, packets[0], rewrite);
      var (n, _, events) := AddPacket(s, packets[0], rewrite);
      RunFollows(n, packets[1..], rewrite);
      FollowSum(FollowerOf(s), events, RunPackets(n, packets[1..], rewrite).1);
    }
  }

  /** The chunk number k, from 0, of a channel of a call has the number 2 + k, and after 65534 the numbers 1 to
      65534 over and over; its timestamp is 160 times that. */
  lemma CallIsNumbered(s: Session, packets: seq<Packet>, rewrite: bool)
    requires Unheard(s)
    ensures var events := RunPackets(s, packets, rewrite).1;
      && (forall k | 0 <= k < |ChannelNumbers(events, 1)| :: ChannelNumbers(events, 1)[k] == 1 + (1 + k) % 65534)
      && (forall k | 0 <= k < |ChannelNumbers(events, 2)| :: ChannelNumbers(events, 2)[k] == 1 + (1 + k) % 65534)
      && (forall i | 0 <= i < |events| && events[i].Audio? :: events[i].timestamp == 160 * events[i].sequenceNumber)
  {
    hide ChannelNumbers;
    var events := RunPackets(s, packets, rewrite).1;
    RunFollows(s, packets, rewrite);
    AcceptedNumbers(FollowerOf(s), events);
    forall k | 0 <= k < |ChannelNumbers(events, 1)| ensures ChannelNumbers(events, 1)[k] == 1 + (1 + k) % 65534 {
      NumberAt(1, ChannelNumbers(events, 1), k);
    }
    forall k | 0 <= k < |ChannelNumbers(events, 2)| ensures ChannelNumbers(events, 2)[k] == 1 + (1 + k) % 65534 {
      NumberAt(1, ChannelNumbers(events, 2), k);
    }
  }

  // ---------------------------------------------------------------------------------------------
  // The class

  class VoiceSession {
    const srcKey: Key
    var destKey: Option<Key>
    var state: CallState
    var started: bool
    var stopped: bool
    var numIax2Packets: nat
    var lastIax2Packet: bool
    var lastSide1: Option<(nat, nat)>
    var lastSide2: Option<nat>
    var codec: nat
    var channel1SeqNo: nat
    var channel2SeqNo: nat
    var lastUpdated: int
    var reported: seq<Event>

    ghost function Model(): Session
      reads this
    {
      Session(srcKey, destKey, state, started, stopped, numIax2Packets, lastIax2Packet, lastSide1, lastSide2, codec,
              channel1SeqNo, channel2SeqNo, lastUpdated)
    }

    constructor (key: Key, now: int)
      ensures Model() == NewSession(key, now) && reported == []
    {
      srcKey := key;
      destKey, state, started, stopped := None, Waiting, false, false;
      numIax2Packets, lastIax2Packet, lastSide1, lastSide2, codec := 0, false, None, None, 0;
      channel1SeqNo, channel2SeqNo, lastUpdated := 1, 1, now;
      reported := [];
    }

    method StopCall()
      modifies this
      ensures Model() == Stop(old(Model())).0
      ensures reported == old(reported) + Stop(old(Model())).1
    {
      if started && !stopped {
        reported := reported + [EtStop];
        stopped := true;
      } else {
        assert reported + [] == reported;
      }
    }

    /** Which side the packet belongs to; None when it is dismissed as a duplicate. */
    method PickSide(p: Packet, rewrite: bool) returns (channel: Option<nat>)
      modifies this`lastSide1, this`lastSide2
      ensures (Model(), channel) == ChooseSide(old(Model()), p, rewrite)
    {
      if lastSide1.None? {
        lastSide1 := Some((p.destIp, p.timestamp));
        return Some(1);
      }
      var timestamp := p.timestamp;
      if p.destIp == lastSide1.value.0 {
        if rewrite {
          timestamp := (lastSide1.value.1 + 20) % 0x1_0000_0000;
        } else if timestamp == lastSide1.value.1 {
          return None;
        }
        lastSide1 := Some((p.destIp, timestamp));
        return Some(1);
      }
      if lastSide2.Some? {
        if rewrite {
          timestamp := (timestamp + lastSide2.value + 20) % 0x1_0000_0000;
        } else if timestamp == lastSide2.value {
          return None;
        }
      }
      lastSide2 := Some(timestamp);
      return Some(2);
    }

    method NextNumber(channel: nat) returns (seqNo: nat)
      modifies this`channel1SeqNo, this`channel2SeqNo
      ensures seqNo == Succ(old(if channel == 1 then channel1SeqNo else channel2SeqNo))
      ensures channel1SeqNo == (if channel == 1 then seqNo else old(channel1SeqNo))
      ensures channel2SeqNo == (if channel == 1 then old(channel2SeqNo) else seqNo)
    {
      if channel == 1 {
        channel1SeqNo := channel1SeqNo + 1;
        if channel1SeqNo >= 65535 {
          channel1SeqNo := 1;
        }
        return channel1SeqNo;
      }
      channel2SeqNo := channel2SeqNo + 1;
      if channel2SeqNo >= 65535 {
        channel2SeqNo := 1;
      }
      return channel2SeqNo;
    }

    method ReportPacket(p: Packet, channel: nat)
      modifies this
      ensures Model() == Report(old(Model()), p, channel).0
      ensures reported == old(reported) + Report(old(Model()), p, channel).1
    {
      hide Succ;
      numIax2Packets := numIax2Packets + 1;
      ghost var start: seq<Event> := [];
      if numIax2Packets == 1 {
        started := true;
        reported := reported + [EtStart];
        start := [EtStart];
      }
      var seqNo := NextNumber(channel);
      ghost var audio: seq<Event> := [];
      if started {
        audio := [Audio(channel, seqNo, seqNo * RTP_TIMESTAMP, Sound(codec, p.payload, p.arrival))];
        reported := reported + [Audio(channel, seqNo, seqNo * RTP_TIMESTAMP, Sound(codec, p.payload, p.arrival))];
        lastUpdated := p.arrival;
      }
      assert reported == old(reported) + (start + audio);
      assert start + [] == start;
    }

    method AddIax2Packet(p: Packet, rewrite: bool) returns (inOrder: bool)
      modifies this
      ensures Model() == AddPacket(old(Model()), p, rewrite).0
      ensures inOrder == AddPacket(old(Model()), p, rewrite).1
      ensures reported == old(reported) + AddPacket(old(Model()), p, rewrite).2
    {
      hide ChooseSide, Report;
      assert reported + [] == reported;
      if state != Linked && state != Up {
        return false;
      }
      if !lastIax2Packet {
        if !p.full {
          return true;
        }
        codec := p.payloadType;
        state := Up;
      }
      if p.full {
        codec := p.payloadType;
      }
      lastIax2Packet := true;
      var channel := PickSide(p, rewrite);
      if channel.None? {
        return true;
      }
      ReportPacket(p, channel.value);
      return true;
    }
  }
}
