/** The Opus identification header (RFC 7845 section 5.1), to and from its packet. */
module OpusHeaders {
  import opened Common

  const MAGIC: seq<Byte> := [0x4F, 0x70, 0x75, 0x73, 0x48, 0x65, 0x61, 0x64]
  const FIXED_SIZE := 19
  const MAX_CHANNELS := 255

  datatype Header = Header(
    version: int, channels: int, preskip: int, sampleRate: int, gain: int, mapping: int,
    streams: int, coupled: int, streamMap: seq<Byte>)

  // ---------------------------------------------------------------------------------------------
  // Little-endian numbers

  function U16(b: seq<Byte>): (n: nat)
    requires |b| == 2
    ensures n < 0x1_0000
  {
    b[0] as int + 0x100 * b[1] as int
  }

  function U32(b: seq<Byte>): (n: nat)
    requires |b| == 4
    ensures n < 0x1_0000_0000
  {
    U16(b[..2]) + 0x1_0000 * U16(b[2..])
  }

  function Low(n: int): (b: Byte) { n % 0x100 }

  function Le16(n: int): (b: seq<Byte>)
    ensures |b| == 2
  {
    [Low(n), Low(n / 0x100)]
  }

  function Le32(n: int): (b: seq<Byte>)
    ensures |b| == 4
  {
    Le16(n) + Le16(n / 0x1_0000)
  }

  function Signed16(n: nat): (s: int) { if n < 0x8000 then n else n - 0x1_0000 }

  lemma Le16RoundTrip(n: int)
    ensures U16(Le16(n)) == n % 0x1_0000
  {
    var q := n / 0x100;
    assert n == 0x100 * q + n % 0x100 && q == 0x100 * (q / 0x100) + q % 0x100;
    assert n == 0x1_0000 * (q / 0x100) + (n % 0x100 + 0x100 * (q % 0x100));
  }

  lemma U16RoundTrip(b: seq<Byte>)
    requires |b| == 2
    ensures Le16(U16(b)) == b
  {}

  lemma Le32RoundTrip(n: nat)
    requires n < 0x1_0000_0000
    ensures U32(Le32(n)) == n
  {
    Le16RoundTrip(n);
    Le16RoundTrip(n / 0x1_0000);
    assert Le32(n)[..2] == Le16(n) && Le32(n)[2..] == Le16(n / 0x1_0000);
  }

  lemma U32RoundTrip(b: seq<Byte>)
    requires |b| == 4
    ensures Le32(U32(b)) == b
  {
    U16RoundTrip(b[..2]);
    U16RoundTrip(b[2..]);
    var low, high := U16(b[..2]), U16(b[2..]);
    assert U32(b) / 0x1_0000 == high;
    SameLow16(low, high);
    assert b == b[..2] + b[2..];
  }

  lemma SameLow16(low: nat, high: nat)
    requires low < 0x1_0000
    ensures Le16(low + 0x1_0000 * high) == Le16(low)
  {
    assert (low + 0x1_0000 * high) / 0x100 == low / 0x100 + 0x100 * high;
  }

  lemma SignedRoundTrip(n: nat)
    requires n < 0x1_0000
    ensures Le16(Signed16(n)) == Le16(n)
  {
    if n >= 0x8000 {
      assert (n - 0x1_0000) / 0x100 == n / 0x100 - 0x100;
    }
  }

  lemma GainRoundTrip(g: int)
    requires -0x8000 <= g < 0x8000
    ensures Signed16(U16(Le16(g))) == g
  {
    Le16RoundTrip(g);
  }

  // ---------------------------------------------------------------------------------------------
  // Reading

  predicate EntryOk(e: Byte, streams: int, coupled: int) { e <= streams + coupled || e == 255 }

  predicate MapOk(map_: seq<Byte>, streams: int, coupled: int) {
    forall i | 0 <= i < |map_| :: EntryOk(map_[i], streams, coupled)
  }

  /** Streams, coupled streams, table, and where the packet should end. */
  datatype Mapping = Mapping(streams: int, coupled: int, streamMap: seq<Byte>, end: nat)

  /** Reads the part behind the fixed one. */
  function ReadMapping(p: seq<Byte>, mapping: Byte, channels: Byte): (r: Option<Mapping>)
    requires |p| >= FIXED_SIZE
  {
    if mapping == 0 then
      if channels > 2 then None else Some(Mapping(1, if channels > 1 then 1 else 0, [0, 1], FIXED_SIZE))
    else if |p| < FIXED_SIZE + 1 || p[FIXED_SIZE] < 1 then None
    else if |p| < FIXED_SIZE + 2 then None
    else
      var streams: int, coupled: int, at := p[FIXED_SIZE], p[FIXED_SIZE + 1], FIXED_SIZE + 2;
      if coupled > streams || coupled + streams > 255 then None
      else if |p| < at + channels || !MapOk(p[at..at + channels], streams, coupled) then None
      else Some(Mapping(streams, coupled, p[at..at + channels], at + channels))
  }

  function Parse(p: seq<Byte>): (r: Option<Header>) {
    if |p| < FIXED_SIZE || p[..8] != MAGIC || p[8] >= 16 || p[9] == 0 then None
    else
      match ReadMapping(p, p[18], p[9])
      case None => None
      case Some(m) =>
        // versions 0 and 1 end here
        if p[8] <= 1 && m.end != |p| then None
        else Some(Header(p[8], p[9], U16(p[10..12]), U32(p[12..16]), Signed16(U16(p[16..18])), p[18],
                         m.streams, m.coupled, m.streamMap))
  }

  // ---------------------------------------------------------------------------------------------
  // Writing

  function Fixed(h: Header): (b: seq<Byte>)
    ensures |b| == FIXED_SIZE
  {
    MAGIC + [1, Low(h.channels)] + Le16(h.preskip) + Le32(h.sampleRate) + Le16(h.gain) + [Low(h.mapping)]
  }

  function Table(h: Header): (b: seq<Byte>)
    requires h.mapping != 0 ==> 0 <= h.channels <= |h.streamMap|
  {
    if h.mapping != 0 then [Low(h.streams), Low(h.coupled)] + h.streamMap[..h.channels] else []
  }

  function Build(h: Header): (b: seq<Byte>)
    requires h.mapping != 0 ==> 0 <= h.channels <= |h.streamMap|
  {
    Fixed(h) + Table(h)
  }

  // ---------------------------------------------------------------------------------------------
  // The two round trips

  /** What a header has to be: the ranges of the packet's fields and the rules for the mapping table. */
  predicate Valid(h: Header) {
    && 0 <= h.version < 16 && 1 <= h.channels <= MAX_CHANNELS && 0 <= h.preskip < 0x1_0000
    && 0 <= h.sampleRate < 0x1_0000_0000 && -0x8000 <= h.gain < 0x8000 && 0 <= h.mapping < 0x100
    && if h.mapping == 0 then
         h.channels <= 2 && h.streams == 1 && h.coupled == h.channels - 1 && h.streamMap == [0, 1]
       else
         && 1 <= h.streams && 0 <= h.coupled <= h.streams && h.coupled + h.streams <= 255
         && |h.streamMap| == h.channels && MapOk(h.streamMap, h.streams, h.coupled)
  }

  lemma FixedFields(h: Header, table: seq<Byte>)
    ensures var p := Fixed(h) + table;
      && p[..8] == MAGIC && p[8] == 1 && p[9] == Low(h.channels) && p[10..12] == Le16(h.preskip)
      && p[12..16] == Le32(h.sampleRate) && p[16..18] == Le16(h.gain) && p[18] == Low(h.mapping)
      && p[FIXED_SIZE..] == table
  {
    hide Low, Le16, Le32;
  }

  lemma MappingReadsTable(h: Header, p: seq<Byte>)
    requires Valid(h) && |p| >= FIXED_SIZE && p[FIXED_SIZE..] == Table(h)
    ensures ReadMapping(p, h.mapping, h.channels) == Some(Mapping(h.streams, h.coupled, h.streamMap, |p|))
  {
    hide MapOk;
    assert |p| == FIXED_SIZE + |Table(h)|;
    if h.mapping != 0 {
      var t := p[FIXED_SIZE..];
      assert h.streamMap[..h.channels] == h.streamMap;
      assert t[0] == p[FIXED_SIZE] == h.streams && t[1] == p[FIXED_SIZE + 1] == h.coupled;
      assert t[2..] == p[FIXED_SIZE + 2..] == h.streamMap;
      assert p[FIXED_SIZE + 2..FIXED_SIZE + 2 + h.channels] == p[FIXED_SIZE + 2..];
    }
  }

  /** The packet of a valid header is parsed back to it, as version 1. */
  lemma BuildThenParse(h: Header)
    requires Valid(h)
    ensures Parse(Build(h)) == Some(h.(version := 1))
  {
    var p := Build(h);
    FixedFields(h, Table(h));
    MappingReadsTable(h, p);
    Le16RoundTrip(h.preskip);
    Le32RoundTrip(h.sampleRate);
    GainRoundTrip(h.gain);
    hide Fixed, Table, Le16, Le32, U16, U32, Signed16, ReadMapping;
  }

  lemma ParsedIsValid(p: seq<Byte>)
    requires Parse(p).Some?
    ensures Valid(Parse(p).value)
  {
    hide MapOk, U16, U32;
  }

  lemma ParsedTable(p: seq<Byte>)
    requires Parse(p).Some?
    ensures var h := Parse(p).value;
      && (h.mapping != 0 ==> h.channels == |h.streamMap|)
      && FIXED_SIZE + |Table(h)| <= |p| && Table(h) == p[FIXED_SIZE..FIXED_SIZE + |Table(h)|]
      && (h.version <= 1 ==> FIXED_SIZE + |Table(h)| == |p|)
  {
    hide MapOk, U16, U32;
    var h := Parse(p).value;
    if h.mapping != 0 {
      var end := FIXED_SIZE + 2 + h.channels;
      assert h.streamMap[..h.channels] == h.streamMap;
      assert p[FIXED_SIZE..end] == [p[FIXED_SIZE], p[FIXED_SIZE + 1]] + p[FIXED_SIZE + 2..end];
    }
  }

  lemma ParsedFixed(p: seq<Byte>)
    requires Parse(p).Some?
    ensures Fixed(Parse(p).value) == p[8 := 1][..FIXED_SIZE]
  {
    hide ReadMapping, U16, U32, Le16, Le32, Signed16;
    var h := Parse(p).value;
    U16RoundTrip(p[10..12]);
    U32RoundTrip(p[12..16]);
    U16RoundTrip(p[16..18]);
    U16Range(p[16..18]);
    SignedRoundTrip(U16(p[16..18]));
    assert p[8 := 1][..FIXED_SIZE]
        == p[..8] + [1, p[9]] + p[10..12] + p[12..16] + p[16..18] + [p[18]];
  }

  lemma U16Range(b: seq<Byte>)
    requires |b| == 2
    ensures U16(b) < 0x1_0000
  {}

  /** Building again from an accepted packet gives its bytes, but for a version byte of 1; all of them
      when it was of version 0 or 1, and then byte for byte the same if it was of version 1. */
  lemma ParseThenBuild(p: seq<Byte>)
    requires Parse(p).Some?
    ensures var h := Parse(p).value;
      && Valid(h)
      && Build(h) <= p[8 := 1]
      && (h.version <= 1 ==> Build(h) == p[8 := 1])
      && (p[8] == 1 ==> Build(h) == p)
  {
    ParsedIsValid(p);
    ParsedTable(p);
    ParsedFixed(p);
    var h := Parse(p).value;
    var end := FIXED_SIZE + |Table(h)|;
    assert h.version == p[8];
    hide Parse, Fixed, Table, Valid;
    assert p[8 := 1][FIXED_SIZE..end] == p[FIXED_SIZE..end];
    assert p[8 := 1][..end] == p[8 := 1][..FIXED_SIZE] + p[8 := 1][FIXED_SIZE..end];
    assert p[8] == 1 ==> p[8 := 1] == p;
  }

  /** So a packet is accepted as version 1 exactly when it is the packet of some valid header. */
  lemma AcceptedIffBuilt(p: seq<Byte>)
    ensures Parse(p).Some? && p[8] == 1 <==> exists h :: Valid(h) && Build(h) == p
  {
    if Parse(p).Some? && p[8] == 1 {
      ParseThenBuild(p);
      assert Valid(Parse(p).value) && Build(Parse(p).value) == p;
    }
    if h :| Valid(h) && Build(h) == p {
      BuildThenParse(h);
    }
  }

  /** The layout behind both: what the bytes of an accepted packet are, and what they say. */
  predicate Layout(p: seq<Byte>) {
    && |p| >= 19 && p[..8] == [79, 112, 117, 115, 72, 101, 97, 100] && p[8] <= 15 && p[9] >= 1
    && if p[18] == 0 then p[9] <= 2 && (p[8] <= 1 ==> |p| == 19)
       else |p| >= 21 && TableLayout(p, p[19], p[20], p[9]) && (p[8] <= 1 ==> |p| == 21 + p[9] as int)
  }

  predicate TableLayout(p: seq<Byte>, streams: int, coupled: int, channels: nat) {
    && 1 <= streams && coupled <= streams && streams + coupled <= 255 && |p| >= 21 + channels
    && forall i | 21 <= i < 21 + channels :: p[i] <= streams + coupled || p[i] == 255
  }

  lemma ParseTells(p: seq<Byte>)
    ensures Parse(p).Some? <==> Layout(p)
    ensures Layout(p) ==>
      var h := Parse(p).value;
      && h.version == p[8] && h.channels == p[9]
      && h.preskip == p[10] as int + 256 * p[11] as int
      && h.sampleRate == p[12] as int + 256 * p[13] as int + 65536 * p[14] as int + 16777216 * p[15] as int
      && h.gain == p[16] as int + 256 * p[17] as int - (if p[17] >= 128 then 65536 else 0)
      && h.mapping == p[18]
      && (p[18] == 0 ==> h.streams == 1 && h.coupled == p[9] - 1 && h.streamMap == [0, 1])
      && (p[18] != 0 ==> h.streams == p[19] && h.coupled == p[20] && h.streamMap == p[21..21 + p[9] as int])
  {
    if |p| >= 19 {
      MappingTells(p);
      hide ReadMapping, TableLayout;
    }
  }

  lemma MappingTells(p: seq<Byte>)
    requires |p| >= 19
    ensures var m := ReadMapping(p, p[18], p[9]);
      if p[18] == 0 then
        if p[9] > 2 then m == None else m == Some(Mapping(1, if p[9] == 2 then 1 else 0, [0, 1], 19))
      else if |p| < 21 || !TableLayout(p, p[19], p[20], p[9]) then m == None
      else m == Some(Mapping(p[19], p[20], p[21..21 + p[9] as int], 21 + p[9] as int))
  {
    if p[18] != 0 && |p| >= 21 + p[9] as int {
      TableTells(p, p[19], p[20], p[9]);
      hide MapOk;
    }
  }

  lemma TableTells(p: seq<Byte>, streams: int, coupled: int, channels: nat)
    requires |p| >= 21 + channels
    ensures MapOk(p[21..21 + channels], streams, coupled)
       <==> forall i | 21 <= i < 21 + channels :: p[i] <= streams + coupled || p[i] == 255
  {
    var table := p[21..21 + channels];
    if MapOk(table, streams, coupled) {
      forall i | 21 <= i < 21 + channels ensures p[i] <= streams + coupled || p[i] == 255 {
        assert EntryOk(table[i - 21], streams, coupled);
      }
    }
  }

  // ---------------------------------------------------------------------------------------------
  // The cursors

  class ROPacket {
    const data: seq<Byte>
    var pos: nat

    constructor (data: seq<Byte>)
      ensures this.data == data && pos == 0
    {
      this.data, pos := data, 0;
    }

    method ReadChars(n: nat) returns (ok: bool, str: seq<Byte>)
      modifies this`pos
      ensures ok <==> old(pos) + n <= |data|
      ensures if ok then str == data[old(pos)..old(pos) + n] && pos == old(pos) + n else str == [] && pos == old(pos)
    {
      ok, str := pos + n <= |data|, [];
      if !ok {
        return;
      }
      ghost var from := pos;
      while |str| < n
        invariant |str| <= n && pos == from + |str| && str == data[from..pos]
      {
        str := str + [data[pos]];
        pos := pos + 1;
      }
    }

    method ReadUint16() returns (ok: bool, val: nat)
      modifies this`pos
      ensures ok <==> old(pos) + 2 <= |data|
      ensures if ok then val == U16(data[old(pos)..old(pos) + 2]) && pos == old(pos) + 2 else pos == old(pos)
    {
      ok, val := pos + 2 <= |data|, 0;
      if ok {
        val := data[pos] as int + data[pos+1] as int * 0x100;
        pos := pos + 2;
      }
    }

    method ReadUint32() returns (ok: bool, val: nat)
      modifies this`pos
      ensures ok <==> old(pos) + 4 <= |data|
      ensures if ok then val == U32(data[old(pos)..old(pos) + 4]) && pos == old(pos) + 4 else pos == old(pos)
    {
      ok, val := pos + 4 <= |data|, 0;
      if ok {
        ghost var four := data[pos..pos + 4];
        assert four[..2] == [data[pos], data[pos+1]] && four[2..] == [data[pos+2], data[pos+3]];
        val := data[pos] as int + data[pos+1] as int * 0x100
             + data[pos+2] as int * 0x1_0000 + data[pos+3] as int * 0x100_0000;
        pos := pos + 4;
      }
    }
  }

  class Packet {
    const data: array<Byte>
    const maxlen: nat
    var pos: nat

    ghost predicate Valid()
      reads this
    {
      pos <= maxlen <= data.Length
    }

    /** What has been written so far. */
    ghost function Written(): (b: seq<Byte>)
      requires Valid()
      reads this, data
      ensures |b| == pos
    {
      data[..pos]
    }

    constructor (data: array<Byte>, maxlen: nat)
      requires maxlen <= data.Length
      ensures Valid() && this.data == data && this.maxlen == maxlen && pos == 0
    {
      this.data, this.maxlen, pos := data, maxlen, 0;
    }

    method WriteChars(str: seq<Byte>) returns (ok: bool)
      requires Valid()
      modifies this`pos, data
      ensures Valid() && (ok <==> old(pos) + |str| <= maxlen)
      ensures Written() == if ok then old(Written()) + str else old(Written())
      ensures data[maxlen..] == old(data[maxlen..])
    {
      ok := pos + |str| <= maxlen;
      if !ok {
        return;
      }
      ghost var from := pos;
      var i := 0;
      while i < |str|
        invariant i <= |str| && pos == from + i <= maxlen
        invariant data[..from] == old(data[..pos]) && data[from..pos] == str[..i]
        invariant data[maxlen..] == old(data[maxlen..])
      {
        data[pos] := str[i];
        pos := pos + 1;
        i := i + 1;
        assert data[from..pos] == data[from..pos - 1] + [data[pos-1]];
      }
      assert data[..pos] == data[..from] + data[from..pos];
    }

    method WriteUint16(val: int) returns (ok: bool)
      requires Valid()
      modifies this`pos, data
      ensures Valid() && (ok <==> old(pos) + 2 <= maxlen)
      ensures Written() == if ok then old(Written()) + Le16(val) else old(Written())
      ensures data[maxlen..] == old(data[maxlen..])
    {
      ok := pos + 2 <= maxlen;
      if ok {
        data[pos], data[pos+1] := Low(val), Low(val / 0x100);
        pos := pos + 2;
      }
    }

    method WriteUint32(val: int) returns (ok: bool)
      requires Valid()
      modifies this`pos, data
      ensures Valid() && (ok <==> old(pos) + 4 <= maxlen)
      ensures Written() == if ok then old(Written()) + Le32(val) else old(Written())
      ensures data[maxlen..] == old(data[maxlen..])
    {
      ok := pos + 4 <= maxlen;
      if ok {
        data[pos], data[pos+1] := Low(val), Low(val / 0x100);
        data[pos+2], data[pos+3] := Low(val / 0x1_0000), Low(val / 0x1_0000 / 0x100);
        pos := pos + 4;
      }
    }
  }

  lemma Grouped(h: Header)
    ensures Fixed(h) == [] + MAGIC + [1] + [Low(h.channels)] + Le16(h.preskip) + Le32(h.sampleRate) + Le16(h.gain)
      + [Low(h.mapping)]
  {
    hide Low, Le16, Le32;
  }

  lemma BadEntry(table: seq<Byte>, i: nat, streams: int, coupled: int)
    requires i < |table| && !EntryOk(table[i], streams, coupled)
    ensures !MapOk(table, streams, coupled)
  {}

  // ---------------------------------------------------------------------------------------------
  // The two conversions

  class OpusHeader {
    var version: int
    var channels: int
    var preskip: int
    var inputSampleRate: int
    var gain: int
    var channelMapping: int
    var nbStreams: int
    var nbCoupled: int
    const streamMap: array<Byte>

    ghost predicate Shaped()
      reads this
    {
      streamMap.Length == MAX_CHANNELS && 0 <= channels <= MAX_CHANNELS
    }

    /** The header with as much of the table as is in use. */
    ghost function Model(): (h: Header)
      requires Shaped()
      reads this, streamMap
    {
      Header(version, channels, preskip, inputSampleRate, gain, channelMapping, nbStreams, nbCoupled,
             if channelMapping != 0 then streamMap[..channels] else streamMap[..2])
    }

    constructor ()
      ensures Shaped() && fresh(streamMap)
    {
      streamMap := new Byte[MAX_CHANNELS];
      version, channels, preskip, inputSampleRate, gain, channelMapping, nbStreams, nbCoupled := 0, 0, 0, 0, 0, 0, 0, 0;
    }

    /** opus_header_parse. A packet refused leaves the fields read so far. */
    method ParsePacket(packet: seq<Byte>) returns (ok: bool)
      requires Shaped()
      modifies this, streamMap
      ensures Shaped() && (ok <==> Parse(packet).Some?)
      ensures ok ==> Model() == Parse(packet).value
    {
      hide U16, U32, Signed16, ReadMapping;
      var p := new ROPacket(packet);
      ok := ParseFixed(p);
      if !ok {
        return;
      }
      ok := ParseMapping(p);
      if ok && version <= 1 && p.pos != |packet| {
        return false;
      }
    }

    method ParseFixed(p: ROPacket) returns (ok: bool)
      requires Shaped() && p.pos == 0
      modifies this`version, this`channels, this`preskip, this`inputSampleRate, this`gain, this`channelMapping, p
      ensures Shaped()
      ensures ok <==> |p.data| >= FIXED_SIZE && p.data[..8] == MAGIC && p.data[8] < 16 && p.data[9] != 0
      ensures ok ==> (
        && p.pos == FIXED_SIZE && version == p.data[8] && channels == p.data[9] && preskip == U16(p.data[10..12])
        && inputSampleRate == U32(p.data[12..16]) && gain == Signed16(U16(p.data[16..18])) && channelMapping == p.data[18])
    {
      hide U16, U32, Signed16;
      if |p.data| < FIXED_SIZE {
        return false;
      }
      var got, str := p.ReadChars(8);
      if str != MAGIC {
        return false;
      }
      var ch;
      got, ch := p.ReadChars(1);
      version := ch[0];
      if version >= 16 {
        return false;
      }
      got, ch := p.ReadChars(1);
      channels := ch[0];
      if channels == 0 {
        return false;
      }
      var shortval, rate;
      got, shortval := p.ReadUint16();
      preskip := shortval;
      got, rate := p.ReadUint32();
      inputSampleRate := rate;
      got, shortval := p.ReadUint16();
      gain := Signed16(shortval);
      got, ch := p.ReadChars(1);
      channelMapping := ch[0];
      return true;
    }

    method ParseMapping(p: ROPacket) returns (ok: bool)
      requires Shaped() && p.pos == FIXED_SIZE <= |p.data|
      requires 0 <= channelMapping < 256
      modifies this`nbStreams, this`nbCoupled, streamMap, p
      ensures ok <==> ReadMapping(p.data, channelMapping, channels).Some?
      ensures ok ==> ReadMapping(p.data, channelMapping, channels).value
                     == Mapping(nbStreams, nbCoupled, Model().streamMap, p.pos)
    {
      if channelMapping == 0 {
        if channels > 2 {
          return false;
        }
        nbStreams := 1;
        nbCoupled := if channels > 1 then 1 else 0;
        streamMap[0], streamMap[1] := 0, 1;
        assert streamMap[..2] == [0, 1];
        return true;
      }
      var got, ch := p.ReadChars(1);
      if !got || ch[0] < 1 {
        return false;
      }
      nbStreams := ch[0];
      got, ch := p.ReadChars(1);
      if !got || ch[0] > nbStreams || ch[0] + nbStreams > 255 {
        return false;
      }
      nbCoupled := ch[0];
      ok := ParseTable(p);
    }

    method ParseTable(p: ROPacket) returns (ok: bool)
      requires Shaped() && p.pos <= |p.data|
      modifies streamMap, p
      ensures ok <==> old(p.pos) + channels <= |p.data|
                      && MapOk(p.data[old(p.pos)..old(p.pos) + channels], nbStreams, nbCoupled)
      ensures ok ==> p.pos == old(p.pos) + channels && streamMap[..channels] == p.data[old(p.pos)..p.pos]
    {
      ghost var from := p.pos;
      var i := 0;
      while i < channels
        invariant 0 <= i <= channels && p.pos == from + i <= |p.data|
        invariant streamMap[..i] == p.data[from..p.pos] && MapOk(p.data[from..p.pos], nbStreams, nbCoupled)
      {
        var got, ch := p.ReadChars(1);
        if !got {
          return false;
        }
        streamMap[i] := ch[0];
        i := i + 1;
        assert p.data[from..p.pos] == p.data[from..p.pos - 1] + ch;
        if streamMap[i-1] > nbStreams + nbCoupled && streamMap[i-1] != 255 {
          if from + channels <= |p.data| {
            BadEntry(p.data[from..from + channels], i - 1, nbStreams, nbCoupled);
          }
          return false;
        }
      }
      return true;
    }

    /** opus_header_to_packet: the packet's length, 0 when it does not fit. */
    method ToPacket(packet: array<Byte>, len: nat) returns (n: nat)
      requires Shaped() && packet != streamMap && len <= packet.Length
      modifies packet
      ensures n == if |Build(Model())| <= len then |Build(Model())| else 0
      ensures n > 0 ==> packet[..n] == Build(Model())
      ensures packet[len..] == old(packet[len..])
    {
      hide Fixed;
      if len < FIXED_SIZE {
        return 0;
      }
      var p := new Packet(packet, len);
      WriteFixed(p);
      if channelMapping != 0 {
        var ok := WriteTable(p);
        if !ok {
          return 0;
        }
      }
      assert channelMapping == 0 ==> Fixed(Model()) + [] == Fixed(Model());
      return p.pos;
    }

    method WriteFixed(p: Packet)
      requires Shaped() && p.Valid() && p.pos == 0 && p.maxlen >= FIXED_SIZE && p.data != streamMap
      modifies p`pos, p.data
      ensures p.Valid() && p.Written() == Fixed(Model())
      ensures p.data[p.maxlen..] == old(p.data[p.maxlen..])
    {
      hide Low, Le16, Le32, Packet.Written;
      var ok := p.WriteChars(MAGIC);
      ok := p.WriteChars([1]);
      ok := p.WriteChars([Low(channels)]);
      ok := p.WriteUint16(preskip);
      ok := p.WriteUint32(inputSampleRate);
      ok := p.WriteUint16(gain);
      ok := p.WriteChars([Low(channelMapping)]);
      Grouped(Model());
    }

    method WriteTable(p: Packet) returns (ok: bool)
      requires Shaped() && channelMapping != 0 && p.Valid() && p.data != streamMap
      modifies p`pos, p.data
      ensures p.Valid() && (ok <==> old(p.pos) + 2 + channels <= p.maxlen)
      ensures ok ==> p.Written() == old(p.Written()) + Table(Model())
      ensures p.data[p.maxlen..] == old(p.data[p.maxlen..])
    {
      hide Low, Packet.Written;
      ghost var start := p.Written();
      ok := p.WriteChars([Low(nbStreams)]);
      if !ok {
        return;
      }
      ok := p.WriteChars([Low(nbCoupled)]);
      if !ok {
        return;
      }
      ghost var first := p.Written();
      var i := 0;
      while i < channels
        invariant 0 <= i <= channels && p.Valid() && p.pos == |first| + i
        invariant p.data[p.maxlen..] == old(p.data[p.maxlen..])
        invariant p.Written() == first + streamMap[..i]
      {
        ok := p.WriteChars([streamMap[i]]);
        if !ok {
          return;
        }
        assert first + streamMap[..i] + [streamMap[i]] == first + streamMap[..i+1];
        i := i + 1;
      }
      ok := true;
      assert streamMap[..channels][..channels] == streamMap[..channels];
      assert start + [Low(nbStreams)] + [Low(nbCoupled)] + streamMap[..channels]
          == start + ([Low(nbStreams), Low(nbCoupled)] + streamMap[..channels]);
    }
  }
}
