/** IPv4 addresses as text, and lists of address blocks (RFC 4632 section 3.1). */
module IpRangeLists {
  import opened Common

  type Octets = b: seq<Byte> | |b| == 4 witness [0, 0, 0, 0]

  predicate IsDigit(c: char) { '0' <= c <= '9' }

  function DigitOf(c: char): (d: nat)
    requires IsDigit(c)
    ensures d < 10
  {
    c as int - '0' as int
  }

  // ---------------------------------------------------------------------------------------------
  // inet_pton4

  /** Octets completed, and the one being read if a digit of it has been seen. */
  datatype Scan = Scan(done: seq<Byte>, current: Option<Byte>)

  const SCAN_START := Scan([], None)

  function Started(s: Scan): nat { |s.done| + if s.current.Some? then 1 else 0 }

  function Step(s: Scan, c: char): (t: Option<Scan>) {
    if IsDigit(c) then
      var val := (if s.current.Some? then s.current.value else 0) * 10 + DigitOf(c);
      if val > 255 || (s.current.None? && Started(s) + 1 > 4) then None
      else Some(Scan(s.done, Some(val)))
    else if c == '.' && s.current.Some? then
      if Started(s) == 4 then None else Some(Scan(s.done + [s.current.value], None))
    else None
  }

  function ScanAll(s: Scan, text: string): (t: Option<Scan>)
    decreases |text|
  {
    if text == [] then Some(s)
    else match Step(s, text[0])
      case None => None
      case Some(n) => ScanAll(n, text[1..])
  }

  function Finished(s: Scan): (r: Option<Octets>) {
    if Started(s) != 4 then None
    else if s.current.Some? then Some(s.done + [s.current.value]) else Some(s.done)
  }

  function Pton(text: string): (r: Option<Octets>) {
    match ScanAll(SCAN_START, text)
    case None => None
    case Some(s) => Finished(s)
  }

  // ---------------------------------------------------------------------------------------------
  // What it accepts: four decimal groups, with dots between

  predicate AllDigits(g: string) { forall i | 0 <= i < |g| :: IsDigit(g[i]) }

  function Value(g: string): (v: nat)
    requires AllDigits(g)
  {
    if g == [] then 0 else Value(g[..|g|-1]) * 10 + DigitOf(g[|g|-1])
  }

  predicate Group(g: string) { g != [] && AllDigits(g) && Value(g) <= 255 }

  datatype Dotted = Dotted(a: string, b: string, c: string, d: string)
  {
    predicate Good() { Group(a) && Group(b) && Group(c) && Group(d) }

    function Text(): string { a + ("." + (b + ("." + (c + ("." + d))))) }

    function Octets(): (o: Octets)
      requires Good()
    {
      [Value(a), Value(b), Value(c), Value(d)]
    }
  }

  lemma {:induction false} ScanSum(s: Scan, a: string, b: string)
    ensures ScanAll(s, a + b) == match ScanAll(s, a) case None => None case Some(t) => ScanAll(t, b)
    decreases |a|
  {
    hide Step;
    if a == [] {
      assert a + b == b;
    } else {
      assert (a + b)[1..] == a[1..] + b;
      if Step(s, a[0]).Some? {
        ScanSum(Step(s, a[0]).value, a[1..], b);
      }
    }
  }

  /** Values only grow while digits come, so the check after each digit is a check of the value. */
  lemma {:induction false} ScanGroup(done: seq<Byte>, g: string)
    requires |done| <= 3 && g != [] && AllDigits(g)
    ensures ScanAll(Scan(done, None), g) == if Value(g) <= 255 then Some(Scan(done, Some(Value(g)))) else None
  {
    var n := |g| - 1;
    var s := Scan(done, None);
    assert g == g[..n] + [g[n]];
    ScanSum(s, g[..n], [g[n]]);
    ScanOne(if n == 0 || Value(g[..n]) > 255 then s else Scan(done, Some(Value(g[..n]))), g[n]);
    if n > 0 {
      ScanGroup(done, g[..n]);
    }
  }

  lemma ScanOne(s: Scan, c: char)
    ensures ScanAll(s, [c]) == Step(s, c)
  {
    assert [c][1..] == [];
  }

  lemma ScanGroupDot(done: seq<Byte>, g: string, rest: string)
    requires |done| <= 2 && Group(g)
    ensures ScanAll(Scan(done, None), g + ("." + rest)) == ScanAll(Scan(done + [Value(g)], None), rest)
  {
    ScanGroup(done, g);
    ScanSum(Scan(done, None), g, "." + rest);
    ScanSum(Scan(done, Some(Value(g))), ".", rest);
    ScanOne(Scan(done, Some(Value(g))), '.');
  }

  lemma PtonAccepts(t: Dotted)
    requires t.Good()
    ensures Pton(t.Text()) == Some(t.Octets())
  {
    hide ScanAll, Value, Group;
    GroupParts(t.a);
    GroupParts(t.b);
    GroupParts(t.c);
    var a: Byte, b: Byte, c: Byte := Value(t.a), Value(t.b), Value(t.c);
    ScanGroupDot([], t.a, t.b + ("." + (t.c + ("." + t.d))));
    assert [] + [a] == [a];
    ScanGroupDot([a], t.b, t.c + ("." + t.d));
    assert [a] + [b] == [a, b];
    ScanGroupDot([a, b], t.c, t.d);
    assert [a, b] + [c] == [a, b, c];
    GroupParts(t.d);
    ScanGroup([a, b, c], t.d);
    assert [a, b, c] + [Value(t.d)] == t.Octets();
  }

  lemma GroupParts(g: string)
    requires Group(g)
    ensures g != [] && AllDigits(g) && Value(g) <= 255
  {}

  // ---------------------------------------------------------------------------------------------
  // And nothing else

  /** Length of the leading run of digits. */
  function DigitRun(text: string): (n: nat)
    ensures n <= |text| && AllDigits(text[..n]) && (n < |text| ==> !IsDigit(text[n]))
  {
    if text == [] || !IsDigit(text[0]) then 0
    else
      var n := 1 + DigitRun(text[1..]);
      assert text[..n] == [text[0]] + text[1..][..n-1];
      n
  }

  lemma DigitFirst(done: seq<Byte>, text: string)
    requires ScanAll(Scan(done, None), text).Some? && text != []
    ensures IsDigit(text[0])
  {}

  /** From the start of a group, an accepted text is that group and then the end, or a dot and more. */
  lemma AcceptedGroup(done: seq<Byte>, text: string) returns (g: string, rest: string)
    requires |done| <= 3 && ScanAll(Scan(done, None), text).Some? && text != []
    ensures Group(g)
    ensures |done| == 3 ==> rest == []
    ensures if rest == [] then
              text == g && ScanAll(Scan(done, None), text) == Some(Scan(done, Some(Value(g))))
            else
              && text == g + rest && rest[0] == '.'
              && ScanAll(Scan(done, None), text) == ScanAll(Scan(done + [Value(g)], None), rest[1..])
  {
    var s, n := Scan(done, None), DigitRun(text);
    g, rest := text[..n], text[n..];
    assert text == g + rest;
    ScanSum(s, g, rest);
    DigitFirst(done, text);
    ScanGroup(done, g);
    if rest == [] {
      assert text == g;
    } else {
      assert rest[0] == text[n];
    }
  }

  /** An accepted text is four such groups, and the address has their values. */
  lemma PtonSound(text: string) returns (t: Dotted)
    requires Pton(text).Some?
    ensures t.Good() && text == t.Text() && Pton(text).value == t.Octets()
  {
    hide ScanAll, Value, Group;
    ScanNothing(Scan([], None));
    var a, b, c, d, rest;
    a, rest := AcceptedGroup([], text);
    GroupParts(a);
    var va: Byte := Value(a);
    NeedsMore([va], rest);
    var rest1 := rest[1..];
    assert [] + [va] == [va];
    b, rest := AcceptedGroup([va], rest1);
    GroupParts(b);
    var vb: Byte := Value(b);
    NeedsMore([va, vb], rest);
    var rest2 := rest[1..];
    assert [va] + [vb] == [va, vb];
    c, rest := AcceptedGroup([va, vb], rest2);
    GroupParts(c);
    var vc: Byte := Value(c);
    NeedsMore([va, vb, vc], rest);
    var rest3 := rest[1..];
    assert [va, vb] + [vc] == [va, vb, vc];
    d, rest := AcceptedGroup([va, vb, vc], rest3);
    t := Dotted(a, b, c, d);
  }

  lemma ScanNothing(s: Scan)
    ensures ScanAll(s, []) == Some(s)
  {}

  lemma NeedsMore(done: seq<Byte>, rest: string)
    requires |done| <= 3
    ensures ScanAll(Scan(done, None), []) == Some(Scan(done, None)) && Finished(Scan(done, None)) == None
  {}

  /** Accepted are exactly the texts of four dotted groups of digits worth at most 255. */
  lemma PtonIffDotted(text: string)
    ensures Pton(text).Some? <==> exists t: Dotted :: t.Good() && t.Text() == text
  {
    hide Pton;
    if Pton(text).Some? {
      var t := PtonSound(text);
      assert t.Good() && t.Text() == text;
    }
    if t: Dotted :| t.Good() && t.Text() == text {
      PtonAccepts(t);
    }
  }

  // ---------------------------------------------------------------------------------------------
  // inet_ntopV4

  function Digit(d: nat): (c: char)
    requires d < 10
  {
    '0' + d as char
  }

  /** What %u prints for a byte. */
  function Decimal(b: Byte): (g: string) {
    if b < 10 then [Digit(b)]
    else if b < 100 then [Digit(b / 10), Digit(b % 10)]
    else [Digit(b / 100), Digit(b / 10 % 10), Digit(b % 10)]
  }

  function DottedOf(o: Octets): Dotted { Dotted(Decimal(o[0]), Decimal(o[1]), Decimal(o[2]), Decimal(o[3])) }

  /** None when the text and its terminator do not fit. */
  function Ntop(o: Octets, size: nat): (r: Option<string>) {
    var text := DottedOf(o).Text();
    if |text| >= size then None else Some(text)
  }

  lemma DigitIsDigit(d: nat)
    requires d < 10
    ensures IsDigit(Digit(d)) && DigitOf(Digit(d)) == d
    ensures AllDigits([Digit(d)]) && Value([Digit(d)]) == d
  {
    assert [Digit(d)][..0] == [];
  }

  lemma OneMoreDigit(g: string, d: nat)
    requires AllDigits(g) && d < 10
    ensures AllDigits(g + [Digit(d)]) && Value(g + [Digit(d)]) == Value(g) * 10 + d
  {
    DigitIsDigit(d);
    assert (g + [Digit(d)])[..|g|] == g;
  }

  lemma DecimalIsGroup(b: Byte)
    ensures Group(Decimal(b)) && Value(Decimal(b)) == b && |Decimal(b)| <= 3
  {
    hide Value, AllDigits, Digit;
    DigitIsDigit(b % 10);
    if b >= 100 {
      var g := [Digit(b / 100)];
      DigitIsDigit(b / 100);
      OneMoreDigit(g, b / 10 % 10);
      OneMoreDigit(g + [Digit(b / 10 % 10)], b % 10);
      assert Decimal(b) == g + [Digit(b / 10 % 10)] + [Digit(b % 10)];
    } else if b >= 10 {
      DigitIsDigit(b / 10);
      OneMoreDigit([Digit(b / 10)], b % 10);
      assert Decimal(b) == [Digit(b / 10)] + [Digit(b % 10)];
    }
  }

  /** Sixteen bytes always suffice, and the text printed is read back as the address. */
  lemma NtopThenPton(o: Octets, size: nat)
    ensures size >= 16 ==> Ntop(o, size).Some?
    ensures Ntop(o, size).Some? ==> Pton(Ntop(o, size).value) == Some(o)
  {
    hide Pton, Decimal, Group;
    DecimalIsGroup(o[0]);
    DecimalIsGroup(o[1]);
    DecimalIsGroup(o[2]);
    DecimalIsGroup(o[3]);
    var t := DottedOf(o);
    PtonAccepts(t);
    assert t.Octets() == o;
  }

  // ---------------------------------------------------------------------------------------------
  // Blocks

  type Address = n: nat | n < 0x1_0000_0000

  /** ntohl of an address in memory. */
  function AddressOf(o: Octets): (n: Address) {
    o[0] as int * 0x100_0000 + o[1] as int * 0x1_0000 + o[2] as int * 0x100 + o[3] as int
  }

  /** A right shift: halving again and again. */
  function Shifted(n: nat, bits: nat): (s: nat) { if bits == 0 then n else Shifted(n, bits - 1) / 2 }

  /** Bit `i` of an address, the least significant first. */
  predicate Bit(n: Address, i: nat) { Shifted(n, i) % 2 == 1 }

  /** RFC 4632: the block of an address and a prefix length is the addresses that share its leading bits. */
  ghost predicate InBlock(ip: Address, base: Address, length: nat)
    requires length <= 32
  {
    forall i | 32 - length <= i < 32 :: Bit(ip, i) == Bit(base, i)
  }

  lemma ShiftEight(n: nat, bits: nat)
    ensures Shifted(n, bits + 8) == Shifted(n, bits) / 0x100
  {
    assert Shifted(n, bits + 2) == Shifted(n, bits) / 4;
    assert Shifted(n, bits + 4) == Shifted(n, bits + 2) / 4;
    assert Shifted(n, bits + 6) == Shifted(n, bits + 4) / 4;
    assert Shifted(n, bits + 8) == Shifted(n, bits + 6) / 4;
  }

  lemma AllShiftedOut(n: Address)
    ensures Shifted(n, 32) == 0
  {
    hide Shifted;
    ShiftEight(n, 0);
    ShiftEight(n, 8);
    ShiftEight(n, 16);
    ShiftEight(n, 24);
    assert Shifted(n, 0) == n by { NotShifted(n); }
  }

  lemma NotShifted(n: nat)
    ensures Shifted(n, 0) == n
  {}

  /** Shifting out the low bits and comparing compares the leading ones. */
  lemma {:induction false} SamePrefix(a: Address, b: Address, width: nat)
    requires width <= 32
    ensures Shifted(a, width) == Shifted(b, width) <==> InBlock(a, b, 32 - width)
    decreases 32 - width
  {
    hide Shifted;
    if width == 32 {
      AllShiftedOut(a);
      AllShiftedOut(b);
    } else {
      SamePrefix(a, b, width + 1);
      ShiftOnce(a, width);
      ShiftOnce(b, width);
      SplitBlock(a, b, width);
    }
  }

  lemma ShiftOnce(n: Address, width: nat)
    ensures Shifted(n, width) == 2 * Shifted(n, width + 1) + if Bit(n, width) then 1 else 0
  {}

  lemma SplitBlock(a: Address, b: Address, width: nat)
    requires width < 32
    ensures InBlock(a, b, 32 - width) <==> Bit(a, width) == Bit(b, width) && InBlock(a, b, 31 - width)
  {
    hide Bit;
  }

  // ---------------------------------------------------------------------------------------------
  // Entries

  predicate IsBlank(c: char) { c == ' ' || 9 <= c as int <= 13 }

  function SkipBlanks(text: string): (r: string) {
    if text != [] && IsBlank(text[0]) then SkipBlanks(text[1..]) else text
  }

  function Clamped(v: int): (r: int) {
    if v > 0x7FFF_FFFF_FFFF_FFFF then 0x7FFF_FFFF_FFFF_FFFF
    else if v < -0x8000_0000_0000_0000 then -0x8000_0000_0000_0000 else v
  }

  /** strtol over the whole text: blanks, a sign, digits; clamped to 64 bits, then cut to the 32 of the
      unsigned int it is assigned to. Nothing at all is 0. */
  function StringToUnsigned(text: string): (r: Option<nat>) {
    var t := SkipBlanks(text);
    var signed := t != [] && (t[0] == '-' || t[0] == '+');
    var digits := if signed then t[1..] else t;
    if digits == [] then (if text == [] then Some(0) else None)
    else if !AllDigits(digits) then None
    else
      var v: int := if t[0] == '-' then 0 - Value(digits) else Value(digits);
      Some(Clamped(v) % 0x1_0000_0000)
  }

  function Find(text: string, c: char): (i: nat)
    ensures i <= |text| && (i < |text| ==> text[i] == c) && c !in text[..i]
  {
    if text == [] then 0
    else if text[0] == c then 0
    else
      var i := 1 + Find(text[1..], c);
      assert text[..i] == [text[0]] + text[1..][..i-1];
      i
  }

  /** Base address and prefix length of an entry; None for one that is refused. */
  function Listed(entry: string): (r: Option<(Address, nat)>)
    ensures r.Some? ==> 1 <= r.value.1 <= 32
  {
    var slash := Find(entry, '/');
    if 0 < slash < |entry| then
      match StringToUnsigned(entry[slash+1..])
      case None => None
      case Some(n) =>
        if n < 1 || n > 32 then None
        else match Pton(entry[..slash])
          case None => None
          case Some(o) => Some((AddressOf(o), n))
    else
      match Pton(entry)
      case None => None
      case Some(o) => Some((AddressOf(o), 32))
  }

  lemma NoSlash(g: string)
    requires Group(g)
    ensures '/' !in g
  {}

  /** An address and "/" and a length from 1 to 32 in decimal is read as just that, and an address alone as
      one with length 32; no other length is taken. */
  lemma WrittenEntryIsRead(t: Dotted, n: Byte)
    requires t.Good()
    ensures Listed(t.Text()) == Some((AddressOf(t.Octets()), 32))
    ensures Listed(t.Text() + ("/" + Decimal(n))) == if 1 <= n <= 32 then Some((AddressOf(t.Octets()), n)) else None
  {
    PtonAccepts(t);
    NoSlash(t.a);
    NoSlash(t.b);
    NoSlash(t.c);
    NoSlash(t.d);
    var text, entry := t.Text(), t.Text() + ("/" + Decimal(n));
    assert '/' !in text && text != [] by { GroupParts(t.a); }
    SlashAt(text, Decimal(n));
    DecimalIsRead(n);
    hide Find, Pton, StringToUnsigned, Decimal, Group;
    assert entry[..|text|] == text && entry[|text|+1..] == Decimal(n);
    assert Find(text, '/') == |text|;
  }

  lemma {:induction false} SlashAt(text: string, more: string)
    requires '/' !in text
    ensures Find(text + ("/" + more), '/') == |text|
  {
    var entry := text + ("/" + more);
    if text != [] {
      assert entry[1..] == text[1..] + ("/" + more);
      SlashAt(text[1..], more);
    }
  }

  lemma DecimalIsRead(n: Byte)
    ensures StringToUnsigned(Decimal(n)) == Some(n)
  {
    DecimalIsGroup(n);
    GroupParts(Decimal(n));
    var first := Decimal(n)[0];
    assert IsDigit(first);
    assert SkipBlanks(Decimal(n)) == Decimal(n);
    hide Decimal, Value, AllDigits, SkipBlanks;
  }

  /** A block whose length is a number of whole octets is the addresses that begin with those octets. */
  lemma BlockOfOctets(a: Octets, b: Octets, k: nat)
    requires k <= 4
    ensures InBlock(AddressOf(a), AddressOf(b), 8 * k) <==> a[..k] == b[..k]
  {
    SamePrefix(AddressOf(a), AddressOf(b), 32 - 8 * k);
    ShiftedOctets(a);
    ShiftedOctets(b);
    assert a == [a[0], a[1], a[2], a[3]] && b == [b[0], b[1], b[2], b[3]];
    hide InBlock, Shifted;
    LeadingOctets(a, b);
    match k
    case 0 => AllShiftedOut(AddressOf(a)); AllShiftedOut(AddressOf(b)); assert a[..0] == b[..0];
    case 1 =>
    case 2 =>
    case 3 =>
    case 4 => assert a[..4] == a && b[..4] == b;
  }

  lemma ShiftedOctets(o: Octets)
    ensures var n := AddressOf(o);
      && Shifted(n, 24) == o[0]
      && Shifted(n, 16) == o[0] as int * 256 + o[1]
      && Shifted(n, 8) == o[0] as int * 65536 + o[1] as int * 256 + o[2]
      && Shifted(n, 0) == o[0] as int * 16777216 + o[1] as int * 65536 + o[2] as int * 256 + o[3]
  {
    var n := AddressOf(o);
    NotShifted(n);
    ShiftEight(n, 0);
    ShiftEight(n, 8);
    ShiftEight(n, 16);
    hide Shifted;
  }

  lemma LeadingOctets(a: Octets, b: Octets)
    ensures a[..1] == b[..1] <==> a[0] == b[0]
    ensures a[..2] == b[..2] <==> a[0] == b[0] && a[1] == b[1]
    ensures a[..3] == b[..3] <==> a[0] == b[0] && a[1] == b[1] && a[2] == b[2]
    ensures a[..4] == b[..4] <==> a[0] == b[0] && a[1] == b[1] && a[2] == b[2] && a[3] == b[3]
  {
    assert forall k | 0 < k <= 4 :: a[..k] == b[..k] ==> forall i | 0 <= i < k :: a[..k][i] == b[..k][i];
  }

  /** The first entry from `i` on that is refused. */
  function FirstRefused(entries: seq<string>, i: nat): (n: nat)
    requires i <= |entries|
    ensures i <= n <= |entries|
    ensures forall j | i <= j < n :: Listed(entries[j]).Some?
    ensures n < |entries| ==> Listed(entries[n]).None?
    decreases |entries| - i
  {
    hide Listed;
    if i == |entries| || Listed(entries[i]).None? then i else FirstRefused(entries, i + 1)
  }

  function GoodEntries(entries: seq<string>): (n: nat)
    ensures n <= |entries|
    ensures forall i | 0 <= i < n :: Listed(entries[i]).Some?
    ensures n < |entries| ==> Listed(entries[n]).None?
  {
    FirstRefused(entries, 0)
  }

  /** Prefix and bit width kept for a block. */
  predicate BlockAt(block: Option<(Address, nat)>, prefix: nat, width: nat) {
    && block.Some? && block.value.1 <= 32
    && width == 32 - block.value.1 && prefix == Shifted(block.value.0, width)
  }

  ghost predicate HoldBlocks(entries: seq<string>, prefixes: seq<nat>, widths: seq<nat>, n: nat) {
    && n <= GoodEntries(entries) && |prefixes| == |widths| == n
    && forall i | 0 <= i < n :: BlockAt(Listed(entries[i]), prefixes[i], widths[i])
  }

  lemma AddBlock(entries: seq<string>, prefixes: seq<nat>, widths: seq<nat>, n: nat)
    requires HoldBlocks(entries, prefixes, widths, n) && n < |entries| && Listed(entries[n]).Some?
    ensures var (address, length) := Listed(entries[n]).value;
      HoldBlocks(entries, prefixes + [Shifted(address, 32 - length)], widths + [32 - length], n + 1)
  {
    hide Listed, Shifted;
    var (address, length) := Listed(entries[n]).value;
    assert BlockAt(Listed(entries[n]), Shifted(address, 32 - length), 32 - length);
    hide BlockAt;
    var p, w := prefixes + [Shifted(address, 32 - length)], widths + [32 - length];
    forall i | 0 <= i < n + 1 ensures BlockAt(Listed(entries[i]), p[i], w[i]) {
      if i < n {
        assert BlockAt(Listed(entries[i]), prefixes[i], widths[i]);
      }
    }
  }

  /** In none, or in some, of the blocks of the entries up to `n`. */
  ghost predicate InSomeBlock(ip: Address, entries: seq<string>, n: nat)
    requires n <= GoodEntries(entries)
  {
    exists i :: 0 <= i < n && InBlock(ip, Listed(entries[i]).value.0, Listed(entries[i]).value.1)
  }

  // ---------------------------------------------------------------------------------------------
  // The methods

  method InetPton4(src: string) returns (r: Option<Octets>)
    ensures r == Pton(src)
  {
    hide ScanAll, AllDigits;
    var tmp: seq<Byte>, value: Byte := [], 0;
    var sawDigit, octets, i := false, 0, 0;
    ghost var s := SCAN_START;
    ScanNothing(s);
    while i < |src|
      invariant 0 <= i <= |src|
      invariant s == Scan(tmp, if sawDigit then Some(value) else None)
      invariant octets == Started(s) <= 4 && (!sawDigit ==> value == 0)
      invariant ScanAll(SCAN_START, src) == ScanAll(s, src[i..])
    {
      var ch := src[i];
      ScanFirst(s, src[i..]);
      assert src[i..][1..] == src[i+1..];
      if IsDigit(ch) {
        var val: nat := value as int * 10 + DigitOf(ch);
        if val > 255 {
          return None;
        }
        value := val;
        if !sawDigit {
          octets := octets + 1;
          if octets > 4 {
            return None;
          }
          sawDigit := true;
        }
      } else if ch == '.' && sawDigit {
        if octets == 4 {
          return None;
        }
        tmp, value, sawDigit := tmp + [value], 0, false;
      } else {
        return None;
      }
      s := Scan(tmp, if sawDigit then Some(value) else None);
      i := i + 1;
    }
    ScanNothing(s);
    assert src[i..] == [];
    if octets < 4 {
      return None;
    }
    return Some(if sawDigit then tmp + [value] else tmp);
  }

  lemma ScanFirst(s: Scan, text: string)
    requires text != []
    ensures ScanAll(s, text) == match Step(s, text[0]) case None => None case Some(n) => ScanAll(n, text[1..])
  {}

  method InetNtopV4(src: Octets, size: nat) returns (dst: Option<string>)
    ensures dst == Ntop(src, size)
  {
    hide Decimal;
    var tmp := Decimal(src[0]) + "." + Decimal(src[1]) + "." + Decimal(src[2]) + "." + Decimal(src[3]);
    assert tmp == DottedOf(src).Text();
    dst := if |tmp| >= size then None else Some(tmp);
  }

  /** The body of the loop over the entries: address and prefix length of one. */
  method ReadEntry(entry: string) returns (block: Option<(Address, nat)>)
    ensures block == Listed(entry)
  {
    hide Pton, StringToUnsigned;
    var length, text := 32, entry;
    var slash := Find(entry, '/');
    if 0 < slash < |entry| {
      text := entry[..slash];
      var n := StringToUnsigned(entry[slash+1..]);
      if n.None? || n.value < 1 || n.value > 32 {
        return None;
      }
      length := n.value;
    }
    var o := InetPton4(text);
    if o.None? {
      return None;
    }
    return Some((AddressOf(o.value), length));
  }

  class IpRanges {
    var asciiIpRanges: seq<string>
    var ipRangePrefixes: seq<nat>
    var ipRangeBitWidths: seq<nat>

    constructor (entries: seq<string>)
      ensures asciiIpRanges == entries && ipRangePrefixes == [] && ipRangeBitWidths == []
    {
      asciiIpRanges, ipRangePrefixes, ipRangeBitWidths := entries, [], [];
    }

    /** The lists hold the blocks of the first `n` entries. */
    ghost predicate Holds(n: nat)
      reads this
    {
      HoldBlocks(asciiIpRanges, ipRangePrefixes, ipRangeBitWidths, n)
    }

    /** Succeeds when every entry is good; the first that is not ends it. */
    method Compute() returns (ok: bool)
      modifies this`ipRangePrefixes, this`ipRangeBitWidths
      ensures ok <==> GoodEntries(asciiIpRanges) == |asciiIpRanges|
      ensures Holds(GoodEntries(asciiIpRanges))
    {
      hide Listed, BlockAt, Shifted;
      ipRangePrefixes, ipRangeBitWidths := [], [];
      var k := 0;
      while k < |asciiIpRanges|
        invariant 0 <= k <= GoodEntries(asciiIpRanges) && Holds(k)
      {
        var block := ReadEntry(asciiIpRanges[k]);
        if block.None? {
          return false;
        }
        var width := 32 - block.value.1;
        AddBlock(asciiIpRanges, ipRangePrefixes, ipRangeBitWidths, k);
        ipRangePrefixes := ipRangePrefixes + [Shifted(block.value.0, width)];
        ipRangeBitWidths := ipRangeBitWidths + [width];
        k := k + 1;
      }
      return true;
    }

    /** True exactly for the addresses in some block listed. */
    method Matches(ip: Octets) returns (matches: bool)
      requires Holds(GoodEntries(asciiIpRanges))
      ensures matches <==> InSomeBlock(AddressOf(ip), asciiIpRanges, GoodEntries(asciiIpRanges))
    {
      hide Listed, AddressOf, InBlock, Shifted;
      ghost var a := AddressOf(ip);
      var i := 0;
      while i < |ipRangePrefixes|
        invariant 0 <= i <= |ipRangePrefixes|
        invariant !InSomeBlock(a, asciiIpRanges, i)
      {
        ghost var block := Listed(asciiIpRanges[i]).value;
        assert BlockAt(Listed(asciiIpRanges[i]), ipRangePrefixes[i], ipRangeBitWidths[i]);
        SamePrefix(a, block.0, 32 - block.1);
        if Shifted(AddressOf(ip), ipRangeBitWidths[i]) == ipRangePrefixes[i] {
          assert InBlock(a, Listed(asciiIpRanges[i]).value.0, Listed(asciiIpRanges[i]).value.1);
          return true;
        }
        i := i + 1;
      }
      return false;
    }
  }
}
