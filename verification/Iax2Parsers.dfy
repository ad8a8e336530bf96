/** The information elements of an IAX2 frame (RFC 5456 section 8.6), parsed in place: type bytes
    become the terminators of the values before them. */
module Iax2Parsers {
  import opened Common

  const IE_CALLED_NUMBER: Byte := 1
  const IE_CALLING_NUMBER: Byte := 2
  const IE_CALLING_NAME: Byte := 4
  const IE_USERNAME: Byte := 6
  const IE_FORMAT: Byte := 9
  const IE_AUTHMETHODS: Byte := 14
  const IE_CHALLENGE: Byte := 15

  /** The string fields point into the frame; None is a null pointer. */
  datatype Ies = Ies(
    callee: Option<nat>, caller: Option<nat>, callingName: Option<nat>, username: Option<nat>,
    challenge: Option<nat>, format: nat, authmethods: nat)

  const NO_IES := Ies(None, None, None, None, None, 0, 0)

  function BigEndian(b: seq<Byte>): (n: nat)
    requires |b| == 4
  {
    b[0] as int * 0x100_0000 + b[1] as int * 0x1_0000 + b[2] as int * 0x100 + b[3] as int
  }

  function NumberOf(value: seq<Byte>): (n: nat) { if |value| == 4 then BigEndian(value) else 0 }

  /** What the walk notes of an element whose value is at `at`. */
  function Noted(ies: Ies, ie: Byte, at: nat, value: seq<Byte>): (r: Ies) {
    if ie == IE_CALLING_NAME then ies.(callingName := Some(at))
    else if ie == IE_CALLED_NUMBER then ies.(callee := Some(at))
    else if ie == IE_CALLING_NUMBER then ies.(caller := Some(at))
    else if ie == IE_FORMAT then ies.(format := NumberOf(value))
    else if ie == IE_USERNAME then ies.(username := Some(at))
    else if ie == IE_AUTHMETHODS then ies.(authmethods := NumberOf(value))
    else if ie == IE_CHALLENGE then ies.(challenge := Some(at))
    else ies
  }

  datatype Parsed = Parsed(ok: bool, mem: seq<Byte>, ies: Ies)

  /** The walk over `left` bytes at `pos`; one byte after them belongs to the frame's buffer. */
  function Walk(mem: seq<Byte>, pos: nat, left: nat, ies: Ies): (r: Parsed)
    requires pos + left < |mem|
    ensures |r.mem| == |mem|
    decreases left
  {
    if left < 2 then Parsed(left == 0, mem[pos := 0], ies)
    else if mem[pos+1] > left - 2 then Parsed(false, mem, ies)
    else
      var next := pos + 2 + mem[pos+1];
      Walk(mem[pos := 0], next, left - 2 - mem[pos+1], Noted(ies, mem[pos], pos + 2, mem[pos+2..next]))
  }

  // ---------------------------------------------------------------------------------------------
  // Elements and their bytes

  datatype Element = Element(ie: Byte, value: seq<Byte>)

  type Elements = es: seq<Element> | forall e | e in es :: |e.value| < 256

  function Encode(es: Elements): (b: seq<Byte>) {
    if es == [] then [] else [es[0].ie, |es[0].value|] + es[0].value + Encode(es[1..])
  }

  function Decode(b: seq<Byte>): (r: Option<Elements>)
    decreases |b|
  {
    if b == [] then Some([])
    else if |b| < 2 || b[1] > |b| - 2 then None
    else match Decode(b[2 + b[1]..])
      case None => None
      case Some(rest) => Some([Element(b[0], b[2..2 + b[1]])] + rest)
  }

  lemma EncodeHead(es: Elements)
    requires es != []
    ensures var b, n := Encode(es), |es[0].value|;
      && n < 256 && 2 + n <= |b| && b[0] == es[0].ie && b[1] == n
      && b[2..2 + n] == es[0].value && b[2 + n..] == Encode(es[1..])
  {
    var n := |es[0].value|;
    assert es[0] in es;
    Slices([es[0].ie, n], es[0].value, Encode(es[1..]));
  }

  lemma Slices(a: seq<Byte>, b: seq<Byte>, c: seq<Byte>)
    ensures var s := a + b + c; s[..|a|] == a && s[|a|..|a| + |b|] == b && s[|a| + |b|..] == c
  {}

  lemma {:induction false} EncodeDecodes(es: Elements)
    ensures Decode(Encode(es)) == Some(es)
  {
    if es == [] {
    } else {
      EncodeDecodes(es[1..]);
      EncodeHead(es);
      assert Encode(es) != [];
      hide Encode;
      assert [es[0]] + es[1..] == es;
    }
  }

  lemma Cut(b: seq<Byte>, n: nat)
    requires 2 + n <= |b|
    ensures b == [b[0], b[1]] + b[2..2 + n] + b[2 + n..]
  {}

  lemma EncodeCons(e: Element, rest: Elements)
    requires |e.value| < 256
    ensures Encode([e] + rest) == [e.ie, |e.value|] + e.value + Encode(rest)
  {
    assert ([e] + rest)[1..] == rest;
  }

  lemma {:induction false} DecodeEncodes(b: seq<Byte>)
    requires Decode(b).Some?
    ensures Encode(Decode(b).value) == b
    decreases |b|
  {
    if b == [] {
      assert Encode([]) == [];
    } else {
      hide Encode;
      var n := b[1] as int;
      DecodeEncodes(b[2 + n..]);
      var rest, e := Decode(b[2 + n..]).value, Element(b[0], b[2..2 + n]);
      EncodeCons(e, rest);
      Cut(b, n);
    }
  }

  /** Value of the last element of a type. */
  function Latest(es: seq<Element>, ie: Byte): (v: Option<seq<Byte>>) {
    if es == [] then None
    else if Latest(es[1..], ie).Some? then Latest(es[1..], ie)
    else if es[0].ie == ie then Some(es[0].value) else None
  }

  // ---------------------------------------------------------------------------------------------
  // The walk accepts exactly the concatenations of elements

  lemma WalkStep(mem: seq<Byte>, pos: nat, left: nat, ies: Ies)
    requires pos + left < |mem| && left >= 2 && mem[pos+1] <= left - 2
    ensures var next := pos + 2 + mem[pos+1];
      Walk(mem, pos, left, ies)
      == Walk(mem[pos := 0], next, left - 2 - mem[pos+1], Noted(ies, mem[pos], pos + 2, mem[pos+2..next]))
  {
    hide Noted;
  }

  lemma WalkEnds(mem: seq<Byte>, pos: nat, left: nat, ies: Ies)
    requires pos + left < |mem| && (left < 2 || mem[pos+1] > left - 2)
    ensures Walk(mem, pos, left, ies).ok == (left == 0) == Decode(mem[pos..pos + left]).Some?
  {
    var b := mem[pos..pos + left];
    assert left >= 2 ==> b[1] == mem[pos+1];
  }

  lemma DecodeStep(b: seq<Byte>)
    requires |b| >= 2 && b[1] <= |b| - 2
    ensures Decode(b).Some? <==> Decode(b[2 + b[1]..]).Some?
  {}

  lemma RestBytes(mem: seq<Byte>, pos: nat, left: nat, n: nat)
    requires pos + left < |mem| && 2 + n <= left
    ensures mem[pos := 0][pos + 2 + n..pos + 2 + n + (left - 2 - n)] == mem[pos..pos + left][2 + n..]
  {}

  lemma {:induction false} WalkAccepts(mem: seq<Byte>, pos: nat, left: nat, ies: Ies)
    requires pos + left < |mem|
    ensures Walk(mem, pos, left, ies).ok <==> Decode(mem[pos..pos + left]).Some?
    decreases left
  {
    hide Noted, Walk, Decode;
    var b := mem[pos..pos + left];
    if left >= 2 && mem[pos+1] <= left - 2 {
      var n := mem[pos+1] as int;
      assert b[1] == n;
      var next := pos + 2 + n;
      RestBytes(mem, pos, left, n);
      WalkStep(mem, pos, left, ies);
      DecodeStep(b);
      WalkAccepts(mem[pos := 0], next, left - 2 - n, Noted(ies, mem[pos], pos + 2, mem[pos+2..next]));
    } else {
      WalkEnds(mem, pos, left, ies);
    }
  }

  // ---------------------------------------------------------------------------------------------
  // What the fields read afterwards

  /** Bytes before the walk and after its terminator stay; a successful walk leaves zero where it began. */
  lemma {:induction false} WalkStays(mem: seq<Byte>, pos: nat, left: nat, ies: Ies)
    requires pos + left < |mem|
    ensures var r := Walk(mem, pos, left, ies);
      && r.mem[..pos] == mem[..pos] && r.mem[pos + left + 1..] == mem[pos + left + 1..]
      && (r.ok ==> r.mem[pos] == 0)
    decreases left
  {
    hide Noted;
    if left >= 2 && mem[pos+1] <= left - 2 {
      var n := mem[pos+1] as int;
      var next := pos + 2 + n;
      var rest := Walk(mem[pos := 0], next, left - 2 - n, Noted(ies, mem[pos], pos + 2, mem[pos+2..next]));
      WalkStays(mem[pos := 0], next, left - 2 - n, Noted(ies, mem[pos], pos + 2, mem[pos+2..next]));
      assert rest.mem[..next][..pos] == rest.mem[..pos];
      assert rest.mem[..next][pos] == 0;
    }
  }

  predicate IsString(ie: Byte) {
    ie == IE_CALLED_NUMBER || ie == IE_CALLING_NUMBER || ie == IE_CALLING_NAME || ie == IE_USERNAME
    || ie == IE_CHALLENGE
  }

  function StringField(ies: Ies, ie: Byte): (p: Option<nat>)
    requires IsString(ie)
  {
    if ie == IE_CALLED_NUMBER then ies.callee
    else if ie == IE_CALLING_NUMBER then ies.caller
    else if ie == IE_CALLING_NAME then ies.callingName
    else if ie == IE_USERNAME then ies.username
    else ies.challenge
  }

  function NumberField(ies: Ies, ie: Byte): (n: nat)
    requires ie == IE_FORMAT || ie == IE_AUTHMETHODS
  {
    if ie == IE_FORMAT then ies.format else ies.authmethods
  }

  /** The value sits at `at`, and a zero right behind it. */
  predicate Terminated(mem: seq<Byte>, at: nat, value: seq<Byte>) {
    at + |value| < |mem| && mem[at..at + |value|] == value && mem[at + |value|] == 0
  }

  lemma {:induction false} WalkStringField(mem: seq<Byte>, pos: nat, left: nat, ies: Ies, es: Elements, ie: Byte)
    requires pos + left < |mem| && mem[pos..pos + left] == Encode(es) && IsString(ie)
    ensures var r := Walk(mem, pos, left, ies);
            var f := StringField(r.ies, ie);
      match Latest(es, ie)
      case None => f == StringField(ies, ie)
      case Some(v) => f.Some? && Terminated(r.mem, f.value, v)
    decreases left
  {
    hide Latest, Decode, Walk, Encode, Noted, Terminated, IsString, StringField;
    if es == [] {
      WalkNothing(mem, pos, left, ies);
      LatestNothing(ie);
    } else {
      var e, n := es[0], |es[0].value|;
      HeadBytes(mem, pos, left, es);
      HeadStep(mem, pos, left, ies, es);
      var noted := Noted(ies, e.ie, pos + 2, e.value);
      WalkStringField(mem[pos := 0], pos + 2 + n, left - 2 - n, noted, es[1..], ie);
      LatestStep(es, ie);
      NotedString(ies, e.ie, pos + 2, e.value, ie);
    }
  }

  lemma WalkNothing(mem: seq<Byte>, pos: nat, left: nat, ies: Ies)
    requires pos + left < |mem| && mem[pos..pos + left] == Encode([])
    ensures left == 0 && Walk(mem, pos, left, ies).ies == ies
  {
    assert |mem[pos..pos + left]| == 0;
  }

  lemma LatestNothing(ie: Byte)
    ensures Latest([], ie) == None
  {}

  /** The first element: noted, then the walk goes on behind it, and its value is terminated in the end. */
  lemma HeadStep(mem: seq<Byte>, pos: nat, left: nat, ies: Ies, es: Elements)
    requires pos + left < |mem| && mem[pos..pos + left] == Encode(es) && es != []
    ensures var e, n := es[0], |es[0].value|;
            var next := pos + 2 + n;
      && next <= pos + left
      && Walk(mem, pos, left, ies) == Walk(mem[pos := 0], next, left - 2 - n, Noted(ies, e.ie, pos + 2, e.value))
      && Terminated(Walk(mem, pos, left, ies).mem, pos + 2, e.value)
  {
    hide Decode, Walk, Encode, Noted, Terminated;
    var e, n := es[0], |es[0].value|;
    var next := pos + 2 + n;
    HeadBytes(mem, pos, left, es);
    WalkStep(mem, pos, left, ies);
    var noted := Noted(ies, e.ie, pos + 2, e.value);
    WalkStays(mem[pos := 0], next, left - 2 - n, noted);
    WalkAccepts(mem[pos := 0], next, left - 2 - n, noted);
    EncodeDecodes(es[1..]);
    HeadTerminated(mem, pos, Walk(mem, pos, left, ies).mem, e.value);
  }

  lemma LatestStep(es: seq<Element>, ie: Byte)
    requires es != []
    ensures Latest(es, ie) == if Latest(es[1..], ie).Some? then Latest(es[1..], ie)
      else if es[0].ie == ie then Some(es[0].value) else None
  {}

  lemma NotedString(ies: Ies, ie: Byte, at: nat, value: seq<Byte>, field: Byte)
    requires IsString(field)
    ensures StringField(Noted(ies, ie, at, value), field) == if ie == field then Some(at) else StringField(ies, field)
  {}

  lemma NotedNumber(ies: Ies, ie: Byte, at: nat, value: seq<Byte>, field: Byte)
    requires field == IE_FORMAT || field == IE_AUTHMETHODS
    ensures NumberField(Noted(ies, ie, at, value), field)
         == if ie == field then NumberOf(value) else NumberField(ies, field)
  {}

  lemma SliceOfSlice(s: seq<Byte>, pos: nat, n: nat, i: nat, j: nat)
    requires i <= j <= n && pos + n <= |s|
    ensures s[pos..pos + n][i..j] == s[pos + i..pos + j]
  {
    var inner, outer := s[pos..pos + n][i..j], s[pos + i..pos + j];
    forall k | 0 <= k < |inner| ensures inner[k] == outer[k] {
      assert inner[k] == s[pos..pos + n][i + k] == s[pos + i + k];
    }
  }

  lemma HeadBytes(mem: seq<Byte>, pos: nat, left: nat, es: Elements)
    requires pos + left < |mem| && mem[pos..pos + left] == Encode(es) && es != []
    ensures var n := |es[0].value|;
            var next := pos + 2 + n;
      && 2 + n <= left && mem[pos] == es[0].ie && mem[pos+1] == n && mem[pos+2..next] == es[0].value
      && mem[pos := 0][next..next + (left - 2 - n)] == Encode(es[1..])
  {
    EncodeHead(es);
    hide Encode;
    var b, n := mem[pos..pos + left], |es[0].value|;
    assert b[0] == mem[pos] && b[1] == mem[pos+1];
    SliceOfSlice(mem, pos, left, 2, 2 + n);
    RestBytes(mem, pos, left, n);
  }

  lemma HeadTerminated(mem: seq<Byte>, pos: nat, after: seq<Byte>, value: seq<Byte>)
    requires var next := pos + 2 + |value|;
      && next < |mem| == |after| && mem[pos+2..next] == value
      && after[..next] == mem[pos := 0][..next] && after[next] == 0
    ensures Terminated(after, pos + 2, value)
  {
    var next := pos + 2 + |value|;
    assert after[pos+2..next] == after[..next][pos+2..];
    assert mem[pos+2..next] == mem[pos := 0][..next][pos+2..];
  }

  lemma {:induction false} WalkNumberField(mem: seq<Byte>, pos: nat, left: nat, ies: Ies, es: Elements, ie: Byte)
    requires pos + left < |mem| && mem[pos..pos + left] == Encode(es)
    requires ie == IE_FORMAT || ie == IE_AUTHMETHODS
    ensures NumberField(Walk(mem, pos, left, ies).ies, ie)
      == match Latest(es, ie) case None => NumberField(ies, ie) case Some(v) => NumberOf(v)
    decreases left
  {
    hide Latest, NumberOf, Walk, Encode, Noted, NumberField;
    if es == [] {
      WalkNothing(mem, pos, left, ies);
      LatestNothing(ie);
    } else {
      var e, n := es[0], |es[0].value|;
      HeadBytes(mem, pos, left, es);
      HeadStep(mem, pos, left, ies, es);
      WalkNumberField(mem[pos := 0], pos + 2 + n, left - 2 - n, Noted(ies, e.ie, pos + 2, e.value), es[1..], ie);
      LatestStep(es, ie);
      NotedNumber(ies, e.ie, pos + 2, e.value, ie);
    }
  }

  // ---------------------------------------------------------------------------------------------
  // Reading a field as the C string it is

  function UpToNul(b: seq<Byte>): (s: seq<Byte>)
    ensures s <= b && 0 !in s && (|s| < |b| ==> b[|s|] == 0)
  {
    if b == [] || b[0] == 0 then [] else [b[0]] + UpToNul(b[1..])
  }

  function CString(mem: seq<Byte>, at: nat): (s: seq<Byte>)
    requires at <= |mem|
  {
    UpToNul(mem[at..])
  }

  lemma {:induction false} UpToNulStops(value: seq<Byte>, rest: seq<Byte>)
    requires rest != [] && rest[0] == 0
    ensures UpToNul(value + rest) == UpToNul(value)
  {
    if value == [] {
      assert value + rest == rest;
    } else {
      assert (value + rest)[1..] == value[1..] + rest;
      UpToNulStops(value[1..], rest);
    }
  }

  lemma TerminatedReads(mem: seq<Byte>, at: nat, value: seq<Byte>)
    requires Terminated(mem, at, value)
    ensures CString(mem, at) == UpToNul(value)
  {
    var end := at + |value|;
    assert mem[at..] == value + mem[end..];
    UpToNulStops(value, mem[end..]);
  }

  /** What a field tells: nothing when the frame has no such element, else the last one's value up to
      its first zero byte. */
  predicate FieldReads(ies: Ies, mem: seq<Byte>, es: seq<Element>, ie: Byte)
    requires IsString(ie)
  {
    var f := StringField(ies, ie);
    match Latest(es, ie)
    case None => f == None
    case Some(v) => f.Some? && f.value <= |mem| && CString(mem, f.value) == UpToNul(v)
  }

  /** A frame is accepted exactly when it is a concatenation of complete elements. Although the walk
      overwrites the type bytes, every string field then reads as the last element of its type, and
      every number as that element's four bytes in network order, or 0 when it has not four. */
  lemma ParseReadsElements(mem: seq<Byte>, pos: nat, left: nat, es: Elements)
    requires pos + left < |mem|
    ensures var r := Walk(mem, pos, left, NO_IES);
      && (r.ok <==> Decode(mem[pos..pos + left]).Some?)
      && (mem[pos..pos + left] == Encode(es) ==>
           && r.ok
           && (forall ie: Byte | IsString(ie) :: FieldReads(r.ies, r.mem, es, ie))
           && r.ies.format == (var v := Latest(es, IE_FORMAT); if v.Some? then NumberOf(v.value) else 0)
           && r.ies.authmethods == (var v := Latest(es, IE_AUTHMETHODS); if v.Some? then NumberOf(v.value) else 0))
  {
    hide Walk, Decode, Encode, Latest, CString, Terminated, IsString;
    var r := Walk(mem, pos, left, NO_IES);
    WalkAccepts(mem, pos, left, NO_IES);
    if mem[pos..pos + left] == Encode(es) {
      EncodeDecodes(es);
      forall ie: Byte | IsString(ie) ensures FieldReads(r.ies, r.mem, es, ie) {
        WalkStringField(mem, pos, left, NO_IES, es, ie);
        NoFields(ie);
        var v, f := Latest(es, ie), StringField(r.ies, ie);
        if v.Some? {
          TerminatedReads(r.mem, f.value, v.value);
          TerminatedInside(r.mem, f.value, v.value);
        }
      }
      WalkNumberField(mem, pos, left, NO_IES, es, IE_FORMAT);
      WalkNumberField(mem, pos, left, NO_IES, es, IE_AUTHMETHODS);
    }
  }

  /** The value of the last element of a type, if there is one. */
  predicate IsLast(es: seq<Element>, ie: Byte, v: Option<seq<Byte>>) {
    match v
    case None => forall i | 0 <= i < |es| :: es[i].ie != ie
    case Some(value) =>
      exists i :: 0 <= i < |es| && es[i] == Element(ie, value) && forall j | i < j < |es| :: es[j].ie != ie
  }

  lemma {:induction false} LatestIsLast(es: seq<Element>, ie: Byte)
    ensures IsLast(es, ie, Latest(es, ie))
  {
    if es != [] {
      LatestIsLast(es[1..], ie);
      var v := Latest(es[1..], ie);
      if v.Some? {
        var i :| 0 <= i < |es[1..]| && es[1..][i] == Element(ie, v.value) && forall j | i < j < |es[1..]| :: es[1..][j].ie != ie;
        assert es[i + 1] == Element(ie, v.value);
        assert forall j | i + 1 < j < |es| :: es[j] == es[1..][j - 1];
      } else {
        assert forall j | 1 <= j < |es| :: es[j] == es[1..][j - 1];
        assert es[0].ie == ie ==> es[0] == Element(ie, es[0].value);
      }
    }
  }

  /** A pointer noted for a type: to that last value, read up to its first zero, and null without one. */
  ghost predicate PointsTo(mem: seq<Byte>, f: Option<nat>, es: seq<Element>, ie: Byte) {
    exists v :: IsLast(es, ie, v) &&
      match v
      case None => f == None
      case Some(value) => f.Some? && f.value <= |mem| && CString(mem, f.value) == UpToNul(value)
  }

  /** A number noted for a type: the last value's four bytes, the highest first, and otherwise 0. */
  ghost predicate Tells(n: nat, es: seq<Element>, ie: Byte) {
    exists v :: IsLast(es, ie, v) &&
      if v.Some? && |v.value| == 4
      then n == 16777216 * v.value[0] as int + 65536 * v.value[1] as int + 256 * v.value[2] as int + v.value[3] as int
      else n == 0
  }

  lemma PointsToLatest(ies: Ies, mem: seq<Byte>, es: seq<Element>, ie: Byte)
    requires IsString(ie) && FieldReads(ies, mem, es, ie)
    ensures PointsTo(mem, StringField(ies, ie), es, ie)
  {
    LatestIsLast(es, ie);
    hide Latest, CString, IsLast, UpToNul;
    assert IsLast(es, ie, Latest(es, ie));
  }

  lemma TellsLatest(n: nat, es: seq<Element>, ie: Byte)
    requires n == var v := Latest(es, ie); if v.Some? then NumberOf(v.value) else 0
    ensures Tells(n, es, ie)
  {
    LatestIsLast(es, ie);
    hide Latest, IsLast;
    assert IsLast(es, ie, Latest(es, ie));
  }

  /** Field by field, with the numbers of RFC 5456: which element each of them is. */
  lemma FieldsTell(mem: seq<Byte>, pos: nat, left: nat, es: Elements)
    requires pos + left < |mem| && mem[pos..pos + left] == Encode(es)
    ensures var r := Walk(mem, pos, left, NO_IES);
      && r.ok
      && PointsTo(r.mem, r.ies.callee, es, 1) && PointsTo(r.mem, r.ies.caller, es, 2)
      && PointsTo(r.mem, r.ies.callingName, es, 4) && PointsTo(r.mem, r.ies.username, es, 6)
      && PointsTo(r.mem, r.ies.challenge, es, 15)
      && Tells(r.ies.format, es, 9) && Tells(r.ies.authmethods, es, 14)
  {
    hide Walk, Encode, Latest, NumberOf, FieldReads, PointsTo, Tells;
    ParseReadsElements(mem, pos, left, es);
    var r := Walk(mem, pos, left, NO_IES);
    PointsToLatest(r.ies, r.mem, es, 1);
    PointsToLatest(r.ies, r.mem, es, 2);
    PointsToLatest(r.ies, r.mem, es, 4);
    PointsToLatest(r.ies, r.mem, es, 6);
    PointsToLatest(r.ies, r.mem, es, 15);
    TellsLatest(r.ies.format, es, 9);
    TellsLatest(r.ies.authmethods, es, 14);
  }

  lemma NoFields(ie: Byte)
    requires IsString(ie)
    ensures StringField(NO_IES, ie) == None
  {}

  lemma TerminatedInside(mem: seq<Byte>, at: nat, value: seq<Byte>)
    requires Terminated(mem, at, value)
    ensures at <= |mem|
  {}

  // ---------------------------------------------------------------------------------------------
  // The parser

  /** `pos` is where the frame's elements start in its buffer. */
  method ParseIes(data: array<Byte>, pos: nat, datalen: nat) returns (ok: bool, ies: Ies)
    requires pos + datalen < data.Length
    modifies data
    ensures Parsed(ok, data[..], ies) == Walk(old(data[..]), pos, datalen, NO_IES)
  {
    hide Noted;
    ghost var all := Walk(data[..], pos, datalen, NO_IES);
    ies := NO_IES;
    var at: nat, left: nat := pos, datalen;
    while left >= 2
      invariant at + left == pos + datalen
      invariant Walk(data[..], at, left, ies) == all
      decreases left
    {
      var ie, len := data[at], data[at+1] as int;
      if len > left - 2 {
        return false, ies;
      }
      var next := at + 2 + len;
      ies := Noted(ies, ie, at + 2, data[at+2..next]);
      ghost var before := data[..];
      assert data[..][at+2..next] == data[at+2..next];
      data[at] := 0;
      assert data[..] == before[at := 0];
      at, left := next, left - (len + 2);
    }
    ghost var before := data[..];
    data[at] := 0;
    assert data[..] == before[at := 0];
    ok := left == 0;
  }
}
