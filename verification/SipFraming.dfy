/** Where SIP messages end in a TCP byte stream (RFC 3261, sections 18.3 and 20.14): the source looks
    for a Content-Length header and the blank line after it, and takes that many bytes as the body.

    `mem` is the memory the search runs over and `stop` the end of the stream's bytes in it; what
    lies behind `stop` belongs to someone else, but the comparisons may touch it. */
module SipFraming {
  import opened Common

  /** "Content-Length: " and the blank line, as bytes. */
  const CONTENT_LENGTH: seq<Byte> := [67, 111, 110, 116, 101, 110, 116, 45, 76, 101, 110, 103, 116, 104, 58, 32]
  const BLANK_LINE: seq<Byte> := [13, 10, 13, 10]
  const INT_MAX := 2147483647

  function Lower(b: Byte): Byte { if 65 <= b <= 90 then b + 32 else b }

  predicate MatchesAt(mem: seq<Byte>, p: nat, pattern: seq<Byte>) {
    p + |pattern| <= |mem| && forall j | 0 <= j < |pattern| :: Lower(mem[p+j]) == Lower(pattern[j])
  }

  /** memFindAfter: the first position is compared as it is, later ones only where the pattern's
      first byte stands. The result is the position behind the match. */
  function FindAfter(pattern: seq<Byte>, mem: seq<Byte>, p: nat, stop: nat, first: bool): (r: Option<nat>)
    requires pattern != [] && stop <= |mem|
    ensures r.Some? ==> p + |pattern| <= r.value <= |mem|
    decreases stop - p
  {
    if p >= stop then None
    else if (first || mem[p] == pattern[0]) && MatchesAt(mem, p, pattern) then Some(p + |pattern|)
    else FindAfter(pattern, mem, p + 1, stop, false)
  }

  predicate IsSpace(b: Byte) { b == 32 || 9 <= b <= 13 }

  predicate IsDigit(b: Byte) { 48 <= b <= 57 }

  function ReadDigits(text: seq<Byte>, value: nat): (n: nat) {
    if text == [] || !IsDigit(text[0]) then value else ReadDigits(text[1..], value * 10 + (text[0] - 48) as int)
  }

  /** What "%d" reads from the text: blanks, a sign, digits. */
  function ReadInt(text: seq<Byte>): (r: Option<int>) {
    if text == [] then None
    else if IsSpace(text[0]) then ReadInt(text[1..])
    else if text[0] == 45 && |text| > 1 && IsDigit(text[1]) then Some(-(ReadDigits(text[1..], 0) as int))
    else if text[0] == 43 && |text| > 1 && IsDigit(text[1]) then Some(ReadDigits(text[1..], 0))
    else if IsDigit(text[0]) then Some(ReadDigits(text, 0))
    else None
  }

  /** `Malformed`: the header is there but holds no length from 0 to INT_MAX before the blank line.
      The source then uses a number from further on, an unset or overflowed one, or a negative one,
      with which its loop need not end. */
  datatype Outcome = Incomplete | Complete(end: nat) | Malformed

  /** Length found at `c`, headers ended at `h`. */
  function MessageEnd(mem: seq<Byte>, c: nat, h: nat, stop: nat): (r: Outcome)
    requires c + 4 <= h <= |mem|
  {
    var len := ReadInt(mem[c..h-4]);
    if len.None? || !(0 <= len.value <= INT_MAX) then Malformed
    else if h + len.value > stop then Incomplete
    else Complete(h + len.value)
  }

  /** One turn of the loop in ParseSipStream, for the message that begins at `start`. */
  function NextMessage(mem: seq<Byte>, start: nat, stop: nat): (r: Outcome)
    requires stop <= |mem|
    ensures r.Complete? ==> start < r.end <= stop
  {
    match FindAfter(CONTENT_LENGTH, mem, start, stop, true)
    case None => Incomplete
    case Some(c) =>
      match FindAfter(BLANK_LINE, mem, c, stop, true)
      case None => Incomplete
      case Some(h) => MessageEnd(mem, c, h, stop)
  }

  /** The messages handed on, and where the unparsed rest begins. */
  datatype Parsed = Parsed(messages: seq<seq<Byte>>, offset: nat, malformed: bool)

  function Parse(mem: seq<Byte>, start: nat, stop: nat): (r: Parsed)
    requires start <= stop <= |mem|
    ensures start <= r.offset <= stop
    decreases stop - start
  {
    match NextMessage(mem, start, stop)
    case Incomplete => Parsed([], start, false)
    case Malformed => Parsed([], start, true)
    case Complete(end) =>
      var rest := Parse(mem, end, stop);
      Parsed([mem[start..end]] + rest.messages, rest.offset, rest.malformed)
  }

  // ---------------------------------------------------------------------------------------------
  // The searches stay inside the buffer

  /** No match of either pattern begins before `stop` and ends behind it. */
  ghost predicate Confined(mem: seq<Byte>, stop: nat) {
    && stop <= |mem|
    && (forall p | 0 <= p < stop && MatchesAt(mem, p, CONTENT_LENGTH) :: p + |CONTENT_LENGTH| <= stop)
    && (forall p | 0 <= p < stop && MatchesAt(mem, p, BLANK_LINE) :: p + |BLANK_LINE| <= stop)
  }

  /** A zero byte behind the buffer confines every search. */
  lemma ZeroConfines(mem: seq<Byte>, stop: nat)
    requires stop < |mem| && mem[stop] == 0
    ensures Confined(mem, stop)
  {
    ZeroStopsMatch(mem, stop, CONTENT_LENGTH);
    ZeroStopsMatch(mem, stop, BLANK_LINE);
  }

  lemma ZeroStopsMatch(mem: seq<Byte>, stop: nat, pattern: seq<Byte>)
    requires stop < |mem| && mem[stop] == 0 && forall j | 0 <= j < |pattern| :: Lower(pattern[j]) != 0
    ensures forall p | 0 <= p < stop && MatchesAt(mem, p, pattern) :: p + |pattern| <= stop
  {
    forall p | 0 <= p < stop && p + |pattern| > stop ensures !MatchesAt(mem, p, pattern) {
      var j := stop - p;
      assert j < |pattern| && Lower(mem[p + j]) == 0 && Lower(pattern[j]) != 0;
    }
  }

  lemma {:induction false} FindInBuffer(pattern: seq<Byte>, mem: seq<Byte>, p: nat, stop: nat, first: bool)
    requires pattern != [] && stop <= |mem|
    requires forall q | 0 <= q < stop && MatchesAt(mem, q, pattern) :: q + |pattern| <= stop
    ensures FindAfter(pattern, mem, p, stop, first) == FindAfter(pattern, mem[..stop], p, stop, first)
    ensures var r := FindAfter(pattern, mem, p, stop, first); r.Some? ==> r.value <= stop
    decreases stop - p
  {
    if p >= stop {
    } else {
      var buffer := mem[..stop];
      assert MatchesAt(mem, p, pattern) <==> MatchesAt(buffer, p, pattern);
      FindInBuffer(pattern, mem, p + 1, stop, false);
    }
  }

  /** What lies behind the buffer does not matter. */
  lemma NextMessageInBuffer(mem: seq<Byte>, start: nat, stop: nat)
    requires Confined(mem, stop)
    ensures NextMessage(mem, start, stop) == NextMessage(mem[..stop], start, stop)
  {
    hide FindAfter, MatchesAt;
    FindInBuffer(CONTENT_LENGTH, mem, start, stop, true);
    var c := FindAfter(CONTENT_LENGTH, mem, start, stop, true);
    if c.Some? {
      FindInBuffer(BLANK_LINE, mem, c.value, stop, true);
      var h := FindAfter(BLANK_LINE, mem, c.value, stop, true);
      if h.Some? {
        assert mem[..stop][c.value..h.value-4] == mem[c.value..h.value-4];
      }
    }
  }

  lemma {:induction false} ParseInBuffer(mem: seq<Byte>, start: nat, stop: nat)
    requires Confined(mem, stop) && start <= stop
    ensures Parse(mem, start, stop) == Parse(mem[..stop], start, stop)
    decreases stop - start
  {
    hide NextMessage;
    NextMessageInBuffer(mem, start, stop);
    var r := NextMessage(mem, start, stop);
    if r.Complete? {
      ParseInBuffer(mem, r.end, stop);
      assert mem[..stop][start..r.end] == mem[start..r.end];
    }
  }

  // ---------------------------------------------------------------------------------------------
  // More bytes change nothing that was decided

  lemma {:induction false} FindStays(pattern: seq<Byte>, a: seq<Byte>, b: seq<Byte>, p: nat, first: bool)
    requires pattern != [] && a <= b && FindAfter(pattern, a, p, |a|, first).Some?
    ensures FindAfter(pattern, b, p, |b|, first) == FindAfter(pattern, a, p, |a|, first)
    decreases |a| - p
  {
    if MatchesAt(a, p, pattern) && (first || a[p] == pattern[0]) {
      assert MatchesAt(b, p, pattern);
    } else {
      var found := FindAfter(pattern, a, p, |a|, first).value;
      FindEndsInside(pattern, a, p + 1, false);
      assert MatchesAt(b, p, pattern) ==> MatchesAt(a, p, pattern);
      FindStays(pattern, a, b, p + 1, false);
    }
  }

  lemma {:induction false} FindEndsInside(pattern: seq<Byte>, a: seq<Byte>, p: nat, first: bool)
    requires pattern != [] && FindAfter(pattern, a, p, |a|, first).Some?
    ensures p + |pattern| <= FindAfter(pattern, a, p, |a|, first).value <= |a|
  {}

  lemma DecidedStays(a: seq<Byte>, b: seq<Byte>, start: nat)
    requires a <= b && !NextMessage(a, start, |a|).Incomplete?
    ensures NextMessage(b, start, |b|) == NextMessage(a, start, |a|)
  {
    hide FindAfter, MatchesAt;
    FindStays(CONTENT_LENGTH, a, b, start, true);
    var c := FindAfter(CONTENT_LENGTH, a, start, |a|, true).value;
    FindStays(BLANK_LINE, a, b, c, true);
    var h := FindAfter(BLANK_LINE, a, c, |a|, true).value;
    assert a[c..h-4] == b[c..h-4];
  }

  lemma MessagesAssociate(a: seq<seq<Byte>>, b: seq<seq<Byte>>, c: seq<seq<Byte>>)
    ensures a + b + c == a + (b + c)
  {}

  /** Parsing a longer buffer is parsing the shorter one and going on where that stopped. */
  lemma {:induction false} ParseContinues(a: seq<Byte>, b: seq<Byte>, start: nat)
    requires a <= b && start <= |a| && !Parse(b, start, |b|).malformed
    ensures var (p, q) := (Parse(a, start, |a|), Parse(b, Parse(a, start, |a|).offset, |b|));
      && !p.malformed && !q.malformed
      && Parse(b, start, |b|) == Parsed(p.messages + q.messages, q.offset, false)
    decreases |a| - start
  {
    hide NextMessage;
    var r := NextMessage(a, start, |a|);
    if r.Incomplete? {
      assert [] + Parse(b, start, |b|).messages == Parse(b, start, |b|).messages;
    } else {
      DecidedStays(a, b, start);
      ParseContinues(a, b, r.end);
      assert a[start..r.end] == b[start..r.end];
      var q := Parse(b, Parse(a, r.end, |a|).offset, |b|);
      MessagesAssociate([a[start..r.end]], Parse(a, r.end, |a|).messages, q.messages);
    }
  }

  // ---------------------------------------------------------------------------------------------
  // Messages put on the wire come off it again

  function Join(messages: seq<seq<Byte>>): (r: seq<Byte>) {
    if messages == [] then [] else messages[0] + Join(messages[1..])
  }

  /** One complete message and nothing else. */
  predicate IsMessage(m: seq<Byte>) { NextMessage(m, 0, |m|) == Complete(|m|) }

  /** Searching the tail of a buffer, in the buffer and by itself. */
  lemma {:induction false} FindShifts(pattern: seq<Byte>, whole: seq<Byte>, n: nat, p: nat, first: bool)
    requires pattern != [] && n <= |whole|
    ensures var r := FindAfter(pattern, whole[n..], p, |whole| - n, first);
      FindAfter(pattern, whole, n + p, |whole|, first) == if r.Some? then Some(n + r.value) else None
    decreases |whole| - p
  {
    if n + p >= |whole| {
    } else {
      assert MatchesAt(whole, n + p, pattern) <==> MatchesAt(whole[n..], p, pattern) by {
        assert forall j | n + p <= j < |whole| :: whole[n..][j - n] == whole[j];
      }
      FindShifts(pattern, whole, n, p + 1, false);
    }
  }

  lemma MessageEndShifts(whole: seq<Byte>, n: nat, c: nat, h: nat)
    requires n <= |whole| && c + 4 <= h <= |whole| - n
    ensures var r := MessageEnd(whole[n..], c, h, |whole| - n);
      MessageEnd(whole, n + c, n + h, |whole|) == if r.Complete? then Complete(n + r.end) else r
  {
    assert whole[n + c..n + h - 4] == whole[n..][c..h-4];
  }

  lemma NextMessageShifts(whole: seq<Byte>, n: nat)
    requires n <= |whole|
    ensures var r := NextMessage(whole[n..], 0, |whole| - n);
      NextMessage(whole, n, |whole|) == if r.Complete? then Complete(n + r.end) else r
  {
    hide FindAfter, MessageEnd, MatchesAt;
    FindShifts(CONTENT_LENGTH, whole, n, 0, true);
    var c := FindAfter(CONTENT_LENGTH, whole[n..], 0, |whole| - n, true);
    if c.Some? {
      FindShifts(BLANK_LINE, whole, n, c.value, true);
      var h := FindAfter(BLANK_LINE, whole[n..], c.value, |whole| - n, true);
      if h.Some? {
        MessageEndShifts(whole, n, c.value, h.value);
      }
    }
  }

  lemma FirstMessage(b: seq<Byte>, start: nat, m: seq<Byte>, rest: seq<Byte>)
    requires IsMessage(m) && start <= |b| && b[start..] == m + rest
    ensures NextMessage(b, start, |b|) == Complete(start + |m|)
    ensures b[start..start+|m|] == m && b[start+|m|..] == rest
  {
    hide FindAfter, MessageEnd, MatchesAt;
    TailParts(b, start, m, rest);
    DecidedStays(m, b[start..], 0);
    NextMessageShifts(b, start);
  }

  lemma TailParts(b: seq<Byte>, start: nat, m: seq<Byte>, rest: seq<Byte>)
    requires start <= |b| && b[start..] == m + rest
    ensures start + |m| <= |b| && m <= b[start..]
    ensures b[start..start+|m|] == m && b[start+|m|..] == rest
  {
    assert |b[start..]| == |m| + |rest|;
  }

  lemma NothingIsIncomplete(b: seq<Byte>)
    ensures NextMessage(b, |b|, |b|) == Incomplete
  {}

  /** A stream of messages parses into these messages. */
  lemma {:induction false} MessagesComeBack(b: seq<Byte>, start: nat, messages: seq<seq<Byte>>)
    requires forall i | 0 <= i < |messages| :: IsMessage(messages[i])
    requires start <= |b| && b[start..] == Join(messages)
    ensures Parse(b, start, |b|) == Parsed(messages, |b|, false)
    decreases |messages|
  {
    hide NextMessage;
    if messages == [] {
      NothingIsIncomplete(b);
    } else {
      FirstMessage(b, start, messages[0], Join(messages[1..]));
      MessagesComeBack(b, start + |messages[0]|, messages[1..]);
    }
  }

  /** A message without a body: a head, the length header and the blank line. */
  function Bare(head: seq<Byte>): (m: seq<Byte>) { head + CONTENT_LENGTH + [48] + BLANK_LINE }

  /** The search finds the first match that it passes. */
  lemma {:induction false} FindsAt(pattern: seq<Byte>, mem: seq<Byte>, p: nat, at: nat, first: bool)
    requires pattern != [] && p <= at < |mem| && MatchesAt(mem, at, pattern) && mem[at] == pattern[0]
    requires forall q | p <= q < at :: Lower(mem[q]) != Lower(pattern[0])
    ensures FindAfter(pattern, mem, p, |mem|, first) == Some(at + |pattern|)
    decreases at - p
  {
    if p < at {
      assert !MatchesAt(mem, p, pattern) by {
        assert Lower(mem[p + 0]) != Lower(pattern[0]);
      }
      FindsAt(pattern, mem, p + 1, at, false);
    }
  }

  lemma BareParts(head: seq<Byte>)
    ensures var m, n := Bare(head), |head|;
      && |m| == n + 21 && m[..n] == head
      && MatchesAt(m, n, CONTENT_LENGTH) && m[n] == CONTENT_LENGTH[0]
      && m[n+16] == 48 && MatchesAt(m, n + 17, BLANK_LINE) && m[n+17] == BLANK_LINE[0]
  {}

  lemma ReadZero()
    ensures ReadInt([48]) == Some(0)
  {
    assert [48][1..] == [];
    assert ReadDigits([48], 0) == ReadDigits([], 0) == 0;
  }

  lemma BareIsMessage(head: seq<Byte>)
    requires forall i | 0 <= i < |head| :: Lower(head[i]) != Lower(CONTENT_LENGTH[0])
    ensures IsMessage(Bare(head))
  {
    hide Bare, FindAfter, MatchesAt, ReadInt;
    var m, n := Bare(head), |head|;
    BareParts(head);
    forall q | 0 <= q < n ensures Lower(m[q]) != Lower(CONTENT_LENGTH[0]) {
      assert m[q] == m[..n][q];
    }
    FindsAt(CONTENT_LENGTH, m, 0, n, true);
    FindsAt(BLANK_LINE, m, n + 16, n + 17, true);
    assert m[n + 16..n + 17] == [48];
    ReadZero();
  }

  // ---------------------------------------------------------------------------------------------
  // Messages as they are written

  /** The same letter, or one the other's capital. */
  predicate SameLetter(a: Byte, b: Byte) {
    a == b || (65 <= a <= 90 && b == a + 32) || (97 <= a <= 122 && b as int == a - 32)
  }

  predicate WordAt(m: seq<Byte>, q: nat, word: seq<Byte>) {
    q + |word| <= |m| && forall j | 0 <= j < |word| :: SameLetter(m[q+j], word[j])
  }

  /** The comparison ignores case and nothing else. */
  lemma MatchIgnoresCase(m: seq<Byte>, q: nat, word: seq<Byte>)
    ensures MatchesAt(m, q, word) <==> WordAt(m, q, word)
  {
    if q + |word| <= |m| {
      assert forall j | 0 <= j < |word| :: Lower(m[q+j]) == Lower(word[j]) <==> SameLetter(m[q+j], word[j]);
    }
  }

  function Decimal(n: nat): (text: seq<Byte>)
    ensures text != [] && forall i | 0 <= i < |text| :: 48 <= text[i] <= 57
  {
    if n < 10 then [48 + n] else Decimal(n / 10) + [48 + n % 10]
  }

  /** `header` is "Content-Length: " in any mixture of cases but for its C. */
  datatype SipMessage = SipMessage(head: seq<Byte>, header: seq<Byte>, blanks: seq<Byte>, more: seq<Byte>, body: seq<Byte>)
  {
    function Start(): (b: seq<Byte>) { head + header }

    function Text(): (b: seq<Byte>) { blanks + Decimal(|body|) + more }

    function Bytes(): (b: seq<Byte>) { Start() + Text() + [13, 10, 13, 10] + body }

    /** Nothing before the header looks like it, and no blank line comes before the headers' end. */
    ghost predicate Proper() {
      && |header| == 16 && header[0] == 67 && |body| <= 2147483647
      && WordAt(header, 0, [67, 111, 110, 116, 101, 110, 116, 45, 76, 101, 110, 103, 116, 104, 58, 32])
      && (forall i | 0 <= i < |blanks| :: blanks[i] == 32)
      && (more == [] || !(48 <= more[0] <= 57))
      && (forall q | 0 <= q < |head| :: !WordAt(Bytes(), q, CONTENT_LENGTH))
      && (forall q | |Start()| <= q < |Start()| + |Text()| :: !WordAt(Bytes(), q, BLANK_LINE))
    }
  }

  lemma {:induction false} DigitsOfSum(a: seq<Byte>, b: seq<Byte>, value: nat)
    requires forall i | 0 <= i < |a| :: 48 <= a[i] <= 57
    ensures ReadDigits(a + b, value) == ReadDigits(b, ReadDigits(a, value))
  {
    if a == [] {
      assert a + b == b;
    } else {
      assert (a + b)[1..] == a[1..] + b;
      DigitsOfSum(a[1..], b, value * 10 + (a[0] - 48) as int);
    }
  }

  lemma {:induction false} DecimalRead(n: nat, more: seq<Byte>)
    requires more == [] || !(48 <= more[0] <= 57)
    ensures ReadDigits(Decimal(n) + more, 0) == n
  {
    DigitsOfSum(Decimal(n), more, 0);
    assert ReadDigits(Decimal(n), 0) == n by { DigitsRead(n); }
  }

  lemma {:induction false} DigitsRead(n: nat)
    ensures ReadDigits(Decimal(n), 0) == n
  {
    if n < 10 {
      OneDigit(48 + n, 0);
    } else {
      DigitsRead(n / 10);
      DigitsOfSum(Decimal(n / 10), [48 + n % 10], 0);
      OneDigit(48 + n % 10, n / 10);
    }
  }

  lemma OneDigit(d: Byte, value: nat)
    requires 48 <= d <= 57
    ensures ReadDigits([d], value) == value * 10 + (d - 48) as int
  {
    assert [d][1..] == [];
  }

  lemma {:induction false} BlanksSkipped(blanks: seq<Byte>, text: seq<Byte>)
    requires forall i | 0 <= i < |blanks| :: blanks[i] == 32
    ensures ReadInt(blanks + text) == ReadInt(text)
  {
    if blanks == [] {
      assert blanks + text == text;
    } else {
      assert (blanks + text)[1..] == blanks[1..] + text;
      BlanksSkipped(blanks[1..], text);
    }
  }

  /** The number written is the number read. */
  lemma LengthIsRead(m: SipMessage)
    requires m.Proper()
    ensures ReadInt(m.Text()) == Some(|m.body|)
  {
    var number := Decimal(|m.body|) + m.more;
    assert m.Text() == m.blanks + number;
    BlanksSkipped(m.blanks, number);
    assert number[0] == Decimal(|m.body|)[0];
    DecimalRead(|m.body|, m.more);
  }

  lemma {:induction false} FindsFirst(pattern: seq<Byte>, mem: seq<Byte>, p: nat, at: nat, first: bool)
    requires pattern != [] && p <= at < |mem| && MatchesAt(mem, at, pattern) && mem[at] == pattern[0]
    requires forall q | p <= q < at :: !MatchesAt(mem, q, pattern)
    ensures FindAfter(pattern, mem, p, |mem|, first) == Some(at + |pattern|)
    decreases at - p
  {
    hide MatchesAt;
    if p < at {
      FindsFirst(pattern, mem, p + 1, at, false);
    }
  }

  lemma MessageParts(m: SipMessage)
    requires m.Proper()
    ensures var b, h, t := m.Bytes(), |m.head|, |m.Start()| + |m.Text()|;
      && |b| == t + 4 + |m.body| && |m.Start()| == h + 16
      && WordAt(b, h, CONTENT_LENGTH) && b[h] == CONTENT_LENGTH[0]
      && b[h+16..t] == m.Text()
      && WordAt(b, t, BLANK_LINE) && b[t] == BLANK_LINE[0]
  {
    hide Decimal;
    var b, h, t := m.Bytes(), |m.head|, |m.Start()| + |m.Text()|;
    assert b[h..h+16] == m.header;
    forall j | 0 <= j < 16 ensures b[h+j] == m.header[j] {
      assert b[h..h+16][j] == b[h+j];
    }
    assert m.Start() + m.Text() == b[..t];
    assert b[t..t+4] == [13, 10, 13, 10];
    forall j | 0 <= j < 4 ensures b[t+j] == BLANK_LINE[j] {
      assert b[t..t+4][j] == b[t+j];
    }
  }

  lemma FindsFirstWord(pattern: seq<Byte>, mem: seq<Byte>, p: nat, at: nat)
    requires pattern != [] && p <= at < |mem| && WordAt(mem, at, pattern) && mem[at] == pattern[0]
    requires forall q | p <= q < at :: !WordAt(mem, q, pattern)
    ensures FindAfter(pattern, mem, p, |mem|, true) == Some(at + |pattern|)
  {
    hide MatchesAt, WordAt, FindAfter;
    forall q | p <= q <= at ensures MatchesAt(mem, q, pattern) <==> WordAt(mem, q, pattern) {
      MatchIgnoresCase(mem, q, pattern);
    }
    FindsFirst(pattern, mem, p, at, true);
  }

  /** The searches of the parser find the end of the header and the end of the headers. */
  lemma HeaderFound(m: SipMessage)
    requires m.Proper()
    ensures FindAfter(CONTENT_LENGTH, m.Bytes(), 0, |m.Bytes()|, true) == Some(|m.Start()|)
  {
    MessageParts(m);
    hide MatchesAt, WordAt, FindAfter, Decimal;
    FindsFirstWord(CONTENT_LENGTH, m.Bytes(), 0, |m.head|);
  }

  lemma BlankParts(m: SipMessage)
    requires m.Proper()
    ensures var t := |m.Start()| + |m.Text()|;
      t < |m.Bytes()| && |BLANK_LINE| == 4 && WordAt(m.Bytes(), t, BLANK_LINE) && m.Bytes()[t] == BLANK_LINE[0]
    ensures forall q | |m.Start()| <= q < |m.Start()| + |m.Text()| :: !WordAt(m.Bytes(), q, BLANK_LINE)
  {
    MessageParts(m);
    hide WordAt, Decimal, SipMessage.Start, SipMessage.Text, SipMessage.Bytes;
  }

  lemma BlankLineFound(m: SipMessage)
    requires m.Proper()
    ensures var t := |m.Start()| + |m.Text()|; FindAfter(BLANK_LINE, m.Bytes(), |m.Start()|, |m.Bytes()|, true) == Some(t + 4)
  {
    hide *;
    BlankParts(m);
    FindsFirstWord(BLANK_LINE, m.Bytes(), |m.Start()|, |m.Start()| + |m.Text()|);
  }

  /** Head, "Content-Length: " in any case but for its C, the decimal length, the rest of the headers, the
      blank line and as many bytes as it says are one message. */
  lemma WrittenIsMessage(m: SipMessage)
    requires m.Proper()
    ensures IsMessage(m.Bytes())
  {
    MessageParts(m);
    HeaderFound(m);
    BlankLineFound(m);
    LengthIsRead(m);
    hide FindAfter, ReadInt, WordAt, MatchesAt, Decimal, SipMessage.Start, SipMessage.Text, SipMessage.Bytes;
  }

  function AllBytes(messages: seq<SipMessage>): (r: seq<seq<Byte>>)
    ensures |r| == |messages| && forall i | 0 <= i < |r| :: r[i] == messages[i].Bytes()
  {
    seq(|messages|, i requires 0 <= i < |messages| => messages[i].Bytes())
  }

  /** A stream of such messages parses into them, nothing is left and nothing is malformed. */
  lemma WrittenMessagesComeBack(messages: seq<SipMessage>)
    requires forall i | 0 <= i < |messages| :: messages[i].Proper()
    ensures var b := Join(AllBytes(messages)); Parse(b, 0, |b|) == Parsed(AllBytes(messages), |b|, false)
  {
    hide IsMessage;
    var b, all := Join(AllBytes(messages)), AllBytes(messages);
    forall i | 0 <= i < |all| ensures IsMessage(all[i]) {
      WrittenIsMessage(messages[i]);
    }
    assert b[0..] == b;
    MessagesComeBack(b, 0, all);
  }

  // ---------------------------------------------------------------------------------------------
  // The loops

  method MemFindAfter(pattern: seq<Byte>, mem: seq<Byte>, start: nat, stop: nat) returns (r: Option<nat>)
    requires pattern != [] && stop <= |mem|
    ensures r == FindAfter(pattern, mem, start, stop, true)
    ensures r.Some? ==> start + |pattern| <= r.value <= |mem| && MatchesAt(mem, r.value - |pattern|, pattern)
  {
    var p := start;
    while p < stop
      invariant FindAfter(pattern, mem, start, stop, true) == FindAfter(pattern, mem, p, stop, p == start)
      invariant start <= p
    {
      if (p == start || mem[p] == pattern[0]) && MatchesAt(mem, p, pattern) {
        return Some(p + |pattern|);
      }
      p := p + 1;
    }
    return None;
  }

  method FindMessageEnd(mem: seq<Byte>, start: nat, stop: nat) returns (r: Outcome)
    requires stop <= |mem|
    ensures r == NextMessage(mem, start, stop)
  {
    var contentLenStart := MemFindAfter(CONTENT_LENGTH, mem, start, stop);
    if contentLenStart.None? {
      return Incomplete;
    }
    var headerEnd := MemFindAfter(BLANK_LINE, mem, contentLenStart.value, stop);
    if headerEnd.None? {
      return Incomplete;
    }
    var contentLen := ReadInt(mem[contentLenStart.value..headerEnd.value-4]);
    if contentLen.None? || !(0 <= contentLen.value <= INT_MAX) {
      return Malformed;
    }
    var messageEnd := headerEnd.value + contentLen.value;
    if messageEnd > stop {
      return Incomplete;
    }
    return Complete(messageEnd);
  }

  method ParseSipStream(mem: seq<Byte>, start: nat, stop: nat) returns (offset: nat, messages: seq<seq<Byte>>, malformed: bool)
    requires start <= stop <= |mem|
    ensures Parsed(messages, offset, malformed) == Parse(mem, start, stop)
  {
    offset, messages, malformed := start, [], false;
    while true
      invariant start <= offset <= stop
      invariant Parse(mem, start, stop) == Prefixed(messages, Parse(mem, offset, stop))
      decreases stop - offset
    {
      var next := FindMessageEnd(mem, offset, stop);
      if next.Incomplete? {
        assert messages + [] == messages;
        return;
      }
      if next.Malformed? {
        malformed := true;
        assert messages + [] == messages;
        return;
      }
      PrefixedStep(messages, mem[offset..next.end], Parse(mem, next.end, stop));
      messages := messages + [mem[offset..next.end]];
      offset := next.end;
    }
  }

  ghost function Prefixed(messages: seq<seq<Byte>>, rest: Parsed): Parsed {
    rest.(messages := messages + rest.messages)
  }

  lemma PrefixedStep(messages: seq<seq<Byte>>, message: seq<Byte>, rest: Parsed)
    ensures Prefixed(messages, Prefixed([message], rest)) == Prefixed(messages + [message], rest)
  {
    assert messages + ([message] + rest.messages) == messages + [message] + rest.messages;
  }
}
