/** Objects as one line of key=value fields, either with percent escapes and blanks between fields
    or URL encoded with ampersands between them. The two deserializers are the same scanner. */
module KeyValueSerializer {
  import opened Common
  import opened Texts
  import opened Serializer

  datatype Format = Line | Url

  function Separator(format: Format): Octet { if format == Line then ' ' else '&' }

  // ---------------------------------------------------------------------------------------------
  // URL encoding

  predicate IsUrlSafe(c: Octet) { IsAlnum(c) || c == '-' || c == '.' || c == '@' || c == '_' }

  const HEX_DIGITS: Text := "0123456789ABCDEF"

  /** The search for the character in the list of safe ones also finds the zero byte at its end. */
  function EscapeUrlOne(c: Octet): (r: Text) {
    if c == ' ' then "+"
    else if IsUrlSafe(c) || c as int == 0 then [c]
    else ['%', HEX_DIGITS[c as int / 16], HEX_DIGITS[c as int % 16]]
  }

  function EscapeUrl(s: Text): (r: Text) {
    if s == [] then [] else EscapeUrlOne(s[0]) + EscapeUrl(s[1..])
  }

  function HexValue(c: Octet): (n: Option<nat>)
    ensures n.Some? ==> n.value < 16
  {
    if '0' <= c <= '9' then Some(c as int - '0' as int)
    else if 'A' <= c <= 'F' then Some(c as int - 'A' as int + 10)
    else if 'a' <= c <= 'f' then Some(c as int - 'a' as int + 10)
    else None
  }

  /** What strtol makes of two characters in base 16, cut down to a byte. */
  function HexByte(a: Octet, b: Octet): (c: Octet) {
    var low := if HexValue(b).Some? then HexValue(b).value else 0;
    if HexValue(a).Some? then
      (if HexValue(b).Some? then HexValue(a).value * 16 + low else HexValue(a).value) as char
    else if IsSpace(a) || a == '+' then low as char
    else if a == '-' && low > 0 then (256 - low) as char
    else 0 as char
  }

  /** A code cut off by the end of the string is an error. */
  function UnescapeUrl(s: Text): (r: Result<Text>)
    decreases |s|
  {
    if s == [] then Success([])
    else if s[0] == '+' then Prepend(' ', UnescapeUrl(s[1..]))
    else if s[0] != '%' then Prepend(s[0], UnescapeUrl(s[1..]))
    else if |s| == 1 then Failure
    else if s[1] == '%' then Prepend('%', UnescapeUrl(s[2..]))
    else if |s| == 2 then Failure
    else Prepend(HexByte(s[1], s[2]), UnescapeUrl(s[3..]))
  }

  function Prepend(c: Octet, r: Result<Text>): (p: Result<Text>) {
    match r
    case Success(s) => Success([c] + s)
    case Failure => Failure
  }

  /** A C string ends at its first zero byte. */
  function CString(s: Text): (r: Text) {
    if s == [] || s[0] as int == 0 then [] else [s[0]] + CString(s[1..])
  }

  lemma HexRoundTrip(c: Octet)
    ensures HexByte(HEX_DIGITS[c as int / 16], HEX_DIGITS[c as int % 16]) == c
    ensures HEX_DIGITS[c as int / 16] != '%'
  {
    HexDigitsRead(c as int / 16);
    HexDigitsRead(c as int % 16);
  }

  lemma HexDigitsRead(n: nat)
    requires n < 16
    ensures HexValue(HEX_DIGITS[n]) == Some(n) && IsAlnum(HEX_DIGITS[n]) && HEX_DIGITS[n] != '%'
  {
    if n < 10 {
      assert HEX_DIGITS[n] as int == '0' as int + n;
    } else {
      assert HEX_DIGITS[n] as int == 'A' as int + n - 10;
    }
  }

  /** URL encoding, cut at the first zero byte, decodes to the value cut there. */
  lemma {:induction false} UrlRoundTrip(s: Text)
    ensures UnescapeUrl(CString(EscapeUrl(s))) == Success(CString(s))
  {
    if s == [] || s[0] as int == 0 {
    } else {
      UrlRoundTrip(s[1..]);
      HexRoundTrip(s[0]);
      CStringOfSum(EscapeUrlOne(s[0]), EscapeUrl(s[1..]));
      HexDigitsRead(s[0] as int / 16);
      HexDigitsRead(s[0] as int % 16);
      var one, rest := EscapeUrlOne(s[0]), CString(EscapeUrl(s[1..]));
      assert (one + rest)[|one|..] == rest;
    }
  }

  lemma {:induction false} CStringOfSum(a: Text, b: Text)
    requires forall i | 0 <= i < |a| :: a[i] as int != 0
    ensures CString(a + b) == a + CString(b)
  {
    if a == [] {
      assert a + b == b;
    } else {
      assert (a + b)[1..] == a[1..] + b;
      CStringOfSum(a[1..], b);
    }
  }

  lemma {:induction false} CStringIsIdentity(s: Text)
    ensures CString(s) == s <==> NoZero(s)
  {
    if s == [] || s[0] as int == 0 {
    } else {
      CStringIsIdentity(s[1..]);
    }
  }

  // ---------------------------------------------------------------------------------------------
  // Fields out

  /** A value as it stands in the output. The URL form passes it on as a C string. */
  function EncodeValue(format: Format, value: Text): (r: Text) {
    if format == Line then Escape(SingleLine, value) else CString(EscapeUrl(value))
  }

  function Field(format: Format, field: (Text, Text)): (r: Text) {
    field.0 + "=" + EncodeValue(format, field.1) + [Separator(format)]
  }

  function Serialize(format: Format, fields: Pairs): (r: Text) {
    if fields == [] then [] else Field(format, fields[0]) + Serialize(format, fields[1..])
  }

  // ---------------------------------------------------------------------------------------------
  // Fields in

  datatype State = Start | InKey | InValue | Error

  datatype Scanner = Scanner(state: State, key: Text, value: Text)

  const FRESH := Scanner(Start, [], [])

  /** What one character does to the scanner. */
  function ScanOne(format: Format, w: Scanner, c: Octet): (r: Scanner) {
    match w.state
    case Start =>
      if c == Separator(format) then w
      else if IsAlnum(c) then w.(state := InKey, key := [c])
      else w.(state := Error)
    case InKey =>
      if IsAlnum(c) then w.(key := w.key + [c])
      else if c == '=' then w.(state := InValue, value := [])
      else w.(state := Error)
    case InValue =>
      if c == '=' then w.(state := Error)
      else if c == Separator(format) then w.(state := Start)
      else w.(value := w.value + [c])
    case Error => w
  }

  /** The fields found, keys with values still encoded. A field is taken when its separator comes or
      the input ends; after an error nothing more is read. */
  function Scan(format: Format, w: Scanner, s: Text): (r: Pairs)
    decreases |s|
  {
    if s == [] || w.state == Error then []
    else
      var n := ScanOne(format, w, s[0]);
      if (n.state == Start || |s| == 1) && n.key != [] then
        [(n.key, n.value)] + Scan(format, Scanner(n.state, [], []), s[1..])
      else Scan(format, n, s[1..])
  }

  function DecodeValue(format: Format, value: Text): (r: Result<Text>) {
    if format == Line then Success(Unescape(SingleLine, value)) else UnescapeUrl(value)
  }

  /** Fields are inserted as they are found; the first of two with the same key stays. */
  function Collect(format: Format, fields: Pairs, m: map<Text, Text>): (r: Result<map<Text, Text>>)
    decreases |fields|
  {
    if fields == [] then Success(m)
    else match DecodeValue(format, fields[0].1)
      case Failure => Failure
      case Success(value) => Collect(format, fields[1..], Insert(m, fields[0].0, value))
  }

  function DeSerialize(format: Format, input: Text): (r: Result<map<Text, Text>>) {
    Collect(format, Scan(format, FRESH, Trim(input)), map[])
  }

  // ---------------------------------------------------------------------------------------------
  // Round trip

  predicate IsKey(key: Text) { key != [] && forall i | 0 <= i < |key| :: IsAlnum(key[i]) }

  /** Nothing in an encoded value ends it or looks like a key's end. */
  predicate Plain(format: Format, raw: Text) {
    forall i | 0 <= i < |raw| :: raw[i] != '=' && raw[i] != Separator(format)
  }

  lemma {:induction false} ScanKey(format: Format, key: Text, more: Text, rest: Text)
    requires IsKey(key) && (forall i | 0 <= i < |more| :: IsAlnum(more[i])) && rest != []
    ensures Scan(format, Scanner(InKey, key, []), more + rest) == Scan(format, Scanner(InKey, key + more, []), rest)
    decreases |more|
  {
    if more == [] {
      assert more + rest == rest && key + more == key;
    } else {
      var s := more + rest;
      assert s[0] == more[0] && s[1..] == more[1..] + rest;
      ScanKey(format, key + [more[0]], more[1..], rest);
      assert key + [more[0]] + more[1..] == key + more;
    }
  }

  lemma {:induction false} ScanValue(format: Format, key: Text, value: Text, raw: Text, rest: Text)
    requires key != [] && Plain(format, raw) && rest != []
    ensures Scan(format, Scanner(InValue, key, value), raw + rest) == Scan(format, Scanner(InValue, key, value + raw), rest)
    decreases |raw|
  {
    if raw == [] {
      assert raw + rest == rest && value + raw == value;
    } else {
      var s := raw + rest;
      assert s[0] == raw[0] && s[1..] == raw[1..] + rest;
      ScanValue(format, key, value + [raw[0]], raw[1..], rest);
      assert value + [raw[0]] + raw[1..] == value + raw;
    }
  }

  /** Up to the equals sign. */
  lemma ScanToValue(format: Format, key: Text, rest: Text)
    requires IsKey(key) && rest != []
    ensures Scan(format, FRESH, key + "=" + rest) == Scan(format, Scanner(InValue, key, []), rest)
  {
    var s := key + "=" + rest;
    assert s[1..] == key[1..] + ("=" + rest);
    assert Scan(format, FRESH, s) == Scan(format, Scanner(InKey, [key[0]], []), s[1..]) by {
      assert s[0] == key[0] && |s| > 1;
    }
    ScanKey(format, [key[0]], key[1..], "=" + rest);
    assert [key[0]] + key[1..] == key;
    assert ("=" + rest)[1..] == rest;
  }

  /** A field with its separator. */
  lemma ScanField(format: Format, key: Text, raw: Text, rest: Text)
    requires IsKey(key) && Plain(format, raw)
    ensures Scan(format, FRESH, key + "=" + raw + [Separator(format)] + rest) == [(key, raw)] + Scan(format, FRESH, rest)
  {
    var tail := [Separator(format)] + rest;
    assert key + "=" + raw + [Separator(format)] + rest == key + "=" + (raw + tail);
    ScanToValue(format, key, raw + tail);
    ScanValue(format, key, [], raw, tail);
    assert [] + raw == raw && tail[1..] == rest;
  }

  /** The last field, without one. */
  lemma ScanLastField(format: Format, key: Text, raw: Text)
    requires IsKey(key) && Plain(format, raw)
    ensures Scan(format, FRESH, key + "=" + raw) == [(key, raw)]
  {
    if raw == [] {
      var s := key + "=";
      assert key + "=" + raw == s;
      ScanBareKey(format, key);
    } else {
      ScanToValue(format, key, raw);
      var before, c := raw[..|raw|-1], raw[|raw|-1];
      assert raw == before + [c];
      ScanValue(format, key, [], before, [c]);
      assert [] + before == before && [c][1..] == [];
    }
  }

  lemma ScanBareKey(format: Format, key: Text)
    requires IsKey(key)
    ensures Scan(format, FRESH, key + "=") == [(key, [])]
  {
    var s := key + "=";
    assert s[0] == key[0] && s[1..] == key[1..] + "=";
    ScanKey(format, [key[0]], key[1..], "=");
    assert [key[0]] + key[1..] == key;
    var e: Text := "=";
    assert e[1..] == [];
  }

  /** Neither a separator nor a blank. */
  predicate IsPlainUrl(c: Octet) { c != '=' && c != '&' && !IsSpace(c) }

  lemma EscapeUrlOneIsPlain(c: Octet)
    requires c as int != 0
    ensures forall i | 0 <= i < |EscapeUrlOne(c)| :: IsPlainUrl(EscapeUrlOne(c)[i]) && EscapeUrlOne(c)[i] as int != 0
  {
    hide HEX_DIGITS, HexValue;
    HexDigitsRead(c as int / 16);
    HexDigitsRead(c as int % 16);
  }

  lemma {:induction false} UrlIsPlain(s: Text)
    ensures forall i | 0 <= i < |CString(EscapeUrl(s))| :: IsPlainUrl(CString(EscapeUrl(s))[i])
  {
    hide EscapeUrlOne, IsPlainUrl;
    if s == [] {
    } else if s[0] as int == 0 {
      ZeroEscape(s[0]);
    } else {
      UrlIsPlain(s[1..]);
      EscapeUrlOneIsPlain(s[0]);
      CStringOfSum(EscapeUrlOne(s[0]), EscapeUrl(s[1..]));
    }
  }

  lemma ZeroEscape(c: Octet)
    requires c as int == 0
    ensures EscapeUrlOne(c) == [c]
  {}

  lemma EncodedIsPlain(format: Format, value: Text)
    ensures Plain(format, EncodeValue(format, value))
  {
    if format == Line {
      EscapeProtects(SingleLine, value, ' ');
      EscapeProtects(SingleLine, value, '=');
    } else {
      UrlIsPlain(value);
    }
  }

  function RawFields(format: Format, fields: Pairs): (r: Pairs) {
    if fields == [] then [] else [(fields[0].0, EncodeValue(format, fields[0].1))] + RawFields(format, fields[1..])
  }

  predicate GoodKeys(fields: Pairs) { forall i | 0 <= i < |fields| :: IsKey(fields[i].0) }

  lemma {:induction false} ScanFields(format: Format, fields: Pairs, rest: Text)
    requires GoodKeys(fields)
    ensures Scan(format, FRESH, Serialize(format, fields) + rest) == RawFields(format, fields) + Scan(format, FRESH, rest)
    decreases |fields|
  {
    if fields == [] {
      assert [] + rest == rest;
      assert [] + Scan(format, FRESH, rest) == Scan(format, FRESH, rest);
    } else {
      var (key, value) := fields[0];
      var raw, more := EncodeValue(format, value), Serialize(format, fields[1..]) + rest;
      EncodedIsPlain(format, value);
      ScanField(format, key, raw, more);
      assert Serialize(format, fields) + rest == key + "=" + raw + [Separator(format)] + more;
      ScanFields(format, fields[1..], rest);
      Serializer.AppendAssociates([(key, raw)], RawFields(format, fields[1..]), Scan(format, FRESH, rest));
    }
  }

  lemma {:induction false} SerializeOfSum(format: Format, a: Pairs, b: Pairs)
    ensures Serialize(format, a + b) == Serialize(format, a) + Serialize(format, b)
  {
    hide Field;
    if a == [] {
      assert a + b == b;
    } else {
      assert (a + b)[1..] == a[1..] + b;
      SerializeOfSum(format, a[1..], b);
      Serializer.AppendAssociates(Field(format, a[0]), Serialize(format, a[1..]), Serialize(format, b));
    }
  }

  /** A value without the blanks at its end that single-line escaping leaves as they are. */
  function DropBlanks(s: Text): (r: Text) {
    if s == [] || !IsSpace(s[|s|-1]) || s[|s|-1] == ' ' then s else DropBlanks(s[..|s|-1])
  }

  lemma {:induction false} DropBlanksIsIdentity(s: Text)
    ensures |DropBlanks(s)| <= |s|
    ensures DropBlanks(s) == s <==> NoBlankEnd(s)
    decreases |s|
  {
    if s == [] || !IsSpace(s[|s|-1]) || s[|s|-1] == ' ' {
    } else {
      DropBlanksIsIdentity(s[..|s|-1]);
    }
  }

  lemma {:induction false} TrimEscapedLine(s: Text)
    ensures TrimRight(Escape(SingleLine, s)) == Escape(SingleLine, DropBlanks(s))
    decreases |s|
  {
    if s == [] {
    } else {
      EscapeEnds(SingleLine, s);
      var before, c := s[..|s|-1], s[|s|-1];
      if IsSpace(c) && c != ' ' {
        assert s == before + [c];
        EscapeOfSum(SingleLine, before, [c]);
        assert Escape(SingleLine, [c]) == [c] + [];
        assert Escape(SingleLine, s)[..|Escape(SingleLine, s)|-1] == Escape(SingleLine, before);
        TrimEscapedLine(before);
      }
    }
  }

  /** The fields scanned from the trimmed output: in the URL form all of them, in the single-line
      form the last one may lose blanks. */
  lemma ScanTrimmedUrl(fields: Pairs)
    requires fields != [] && GoodKeys(fields)
    ensures Scan(Url, FRESH, Trim(Serialize(Url, fields))) == RawFields(Url, fields)
  {
    var out := Serialize(Url, fields);
    OutputEnds(Url, fields);
    TrimIsIdentity(out);
    ScanFields(Url, fields, []);
    assert out + [] == out;
    assert RawFields(Url, fields) + [] == RawFields(Url, fields);
  }

  lemma OutputEnds(format: Format, fields: Pairs)
    requires fields != [] && GoodKeys(fields)
    ensures var out := Serialize(format, fields); out != [] && IsAlnum(out[0]) && out[|out|-1] == Separator(format)
  {
    var before, last := fields[..|fields|-1], fields[|fields|-1];
    assert fields == before + [last];
    SerializeOfSum(format, before, [last]);
    SerializeOne(format, last);
    assert Field(format, fields[0])[0] == fields[0].0[0];
    assert IsKey(fields[0].0);
  }

  lemma TrimmedLine(before: Pairs, key: Text, value: Text)
    requires GoodKeys(before) && IsKey(key)
    ensures Trim(Serialize(Line, before + [(key, value)]))
      == Serialize(Line, before) + (key + "=" + EncodeValue(Line, DropBlanks(value)))
  {
    hide Escape, TrimRight, TrimLeft, IsKey, Serialize, Field, DropBlanks;
    var fields, raw := before + [(key, value)], Escape(SingleLine, value);
    var head := Serialize(Line, before) + (key + "=");
    SerializeOfSum(Line, before, [(key, value)]);
    OutputEnds(Line, fields);
    TrimLeftKeepsEnd(Serialize(Line, fields));
    SerializeOne(Line, (key, value));
    FieldOfLine(key, value);
    Serializer.AppendAssociates(Serialize(Line, before), key + "=", raw + " ");
    assert Serialize(Line, fields) == head + (raw + " ");
    assert head[|head|-1] == '=';
    TrimRightOfSum(head, raw + " ");
    DropSpace(raw);
    TrimEscapedLine(value);
    Serializer.AppendAssociates(Serialize(Line, before), key + "=", TrimRight(raw));
  }

  lemma FieldOfLine(key: Text, value: Text)
    ensures Field(Line, (key, value)) == key + "=" + (Escape(SingleLine, value) + " ")
  {}

  lemma SerializeOne(format: Format, field: (Text, Text))
    ensures Serialize(format, [field]) == Field(format, field)
  {
    assert Serialize(format, [field]) == Field(format, field) + [];
  }

  lemma DropSpace(raw: Text)
    ensures TrimRight(raw + " ") == TrimRight(raw)
  {
    assert (raw + " ")[..|raw|] == raw;
  }

  lemma ScanTrimmedLine(before: Pairs, key: Text, value: Text)
    requires GoodKeys(before) && IsKey(key)
    ensures Scan(Line, FRESH, Trim(Serialize(Line, before + [(key, value)])))
      == RawFields(Line, before) + [(key, EncodeValue(Line, DropBlanks(value)))]
  {
    hide Scan, Trim, Serialize, EncodeValue, DropBlanks, IsKey, Plain;
    TrimmedLine(before, key, value);
    EncodedIsPlain(Line, DropBlanks(value));
    ScanFields(Line, before, key + "=" + EncodeValue(Line, DropBlanks(value)));
    ScanLastField(Line, key, EncodeValue(Line, DropBlanks(value)));
  }

  function Kept(format: Format, value: Text, last: bool): (r: Text) {
    if format == Url then CString(value) else if last then DropBlanks(value) else value
  }

  /** What the fields come back as. */
  function KeptValues(format: Format, fields: Pairs): (r: Pairs)
    ensures |r| == |fields|
    ensures forall i | 0 <= i < |r| :: r[i].0 == fields[i].0
    ensures forall i | 0 <= i < |r| :: r[i].1 == Kept(format, fields[i].1, i == |fields| - 1)
  {
    if fields == [] then []
    else
      var (key, value) := fields[0];
      [(key, Kept(format, value, |fields| == 1))] + KeptValues(format, fields[1..])
  }

  lemma {:induction false} CollectUrl(fields: Pairs, m: map<Text, Text>)
    ensures Collect(Url, RawFields(Url, fields), m) == Success(InsertPairs(KeptValues(Url, fields), m))
    decreases |fields|
  {
    if fields == [] {
    } else {
      var (key, value) := fields[0];
      UrlRoundTrip(value);
      var raw := RawFields(Url, fields);
      assert raw[1..] == RawFields(Url, fields[1..]);
      assert KeptValues(Url, fields)[1..] == KeptValues(Url, fields[1..]);
      CollectUrl(fields[1..], Insert(m, key, CString(value)));
    }
  }

  lemma {:induction false} CollectLine(before: Pairs, key: Text, value: Text, m: map<Text, Text>)
    ensures Collect(Line, RawFields(Line, before) + [(key, EncodeValue(Line, DropBlanks(value)))], m)
      == Success(InsertPairs(KeptValues(Line, before + [(key, value)]), m))
    decreases |before|
  {
    var fields := before + [(key, value)];
    var raw := RawFields(Line, before) + [(key, EncodeValue(Line, DropBlanks(value)))];
    if before == [] {
      EscapeRoundTrip(SingleLine, DropBlanks(value));
      assert raw[1..] == [] && fields[1..] == [] && KeptValues(Line, fields)[1..] == [];
    } else {
      EscapeRoundTrip(SingleLine, before[0].1);
      assert raw[1..] == RawFields(Line, before[1..]) + [(key, EncodeValue(Line, DropBlanks(value)))];
      assert fields[1..] == before[1..] + [(key, value)];
      assert KeptValues(Line, fields)[1..] == KeptValues(Line, fields[1..]);
      CollectLine(before[1..], key, value, Insert(m, before[0].0, before[0].1));
    }
  }

  lemma FieldsComeBack(format: Format, fields: Pairs)
    requires GoodKeys(fields)
    ensures DeSerialize(format, Serialize(format, fields)) == Success(InsertPairs(KeptValues(format, fields), map[]))
  {
    if fields == [] {
    } else if format == Url {
      ScanTrimmedUrl(fields);
      CollectUrl(fields, map[]);
    } else {
      var before, last := fields[..|fields|-1], fields[|fields|-1];
      assert fields == before + [last];
      ScanTrimmedLine(before, last.0, last.1);
      CollectLine(before, last.0, last.1, map[]);
    }
  }

  /** URL: no value holds a zero byte. Single line: the last value does not end with a blank other
      than the space. */
  predicate Survives(format: Format, fields: Pairs) {
    if format == Url then forall i | 0 <= i < |fields| :: NoZero(fields[i].1)
    else fields != [] ==> NoBlankEnd(fields[|fields|-1].1)
  }

  predicate NoZero(s: Text) { forall i | 0 <= i < |s| :: s[i] as int != 0 }

  predicate NoBlankEnd(s: Text) { s == [] || !IsSpace(s[|s|-1]) || s[|s|-1] == ' ' }

  lemma KeptIsIdentity(format: Format, fields: Pairs)
    ensures KeptValues(format, fields) == fields <==> Survives(format, fields)
  {
    hide NoZero, NoBlankEnd, CString, DropBlanks;
    var kept := KeptValues(format, fields);
    assert kept == fields <==> forall i | 0 <= i < |fields| :: kept[i].1 == fields[i].1 by {
      assert forall i | 0 <= i < |fields| :: kept[i].0 == fields[i].0;
      if forall i | 0 <= i < |fields| :: kept[i].1 == fields[i].1 {
        assert forall i | 0 <= i < |fields| :: kept[i] == fields[i];
      }
    }
    if format == Url {
      forall i | 0 <= i < |fields|
        ensures kept[i].1 == fields[i].1 <==> NoZero(fields[i].1)
      {
        CStringIsIdentity(fields[i].1);
      }
    } else if fields != [] {
      DropBlanksIsIdentity(fields[|fields|-1].1);
    }
  }

  lemma SameKeysSameMap(a: Pairs, b: Pairs)
    requires |a| == |b| && DistinctKeys(a) && forall i | 0 <= i < |a| :: a[i].0 == b[i].0
    ensures InsertPairs(a, map[]) == InsertPairs(b, map[]) <==> a == b
  {
    assert DistinctKeys(b);
    if i :| 0 <= i < |a| && a[i] != b[i] {
      InsertedValue(a, map[], i);
      InsertedValue(b, map[], i);
    } else {
      assert a == b;
    }
  }

  /** Fields with distinct alphanumeric keys survive exactly when `Survives` says so. */
  lemma FieldsRoundTrip(format: Format, fields: Pairs)
    requires GoodKeys(fields) && DistinctKeys(fields)
    ensures DeSerialize(format, Serialize(format, fields)) == Success(InsertPairs(fields, map[])) <==> Survives(format, fields)
  {
    FieldsComeBack(format, fields);
    KeptIsIdentity(format, fields);
    SameKeysSameMap(fields, KeptValues(format, fields));
  }

  /** A whole object, one of whose fields is a map of tags: every field and the map of tags come back. */
  lemma ObjectRoundTrip(format: Format, fields: Pairs, tagField: nat, tags: Pairs)
    requires GoodKeys(fields) && DistinctKeys(fields) && Survives(format, fields)
    requires tagField < |fields| && fields[tagField].1 == JoinCsvMap(tags)
    requires DistinctKeys(tags) && Steady(tags)
    ensures var r := DeSerialize(format, Serialize(format, fields));
      && r.Success?
      && (forall i | 0 <= i < |fields| :: fields[i].0 in r.value && r.value[fields[i].0] == fields[i].1)
      && GetCsvMap(r.value[fields[tagField].0], map[]) == Success(InsertPairs(tags, map[]))
    ensures forall i | 0 <= i < |tags| ::
      tags[i].0 in InsertPairs(tags, map[]) && InsertPairs(tags, map[])[tags[i].0] == tags[i].1
  {
    FieldsRoundTrip(format, fields);
    forall i | 0 <= i < |fields|
      ensures fields[i].0 in InsertPairs(fields, map[]) && InsertPairs(fields, map[])[fields[i].0] == fields[i].1
    {
      InsertedValue(fields, map[], i);
    }
    CsvMapRoundTrip(tags);
    forall i | 0 <= i < |tags|
      ensures tags[i].0 in InsertPairs(tags, map[]) && InsertPairs(tags, map[])[tags[i].0] == tags[i].1
    {
      InsertedValue(tags, map[], i);
    }
  }

  // ---------------------------------------------------------------------------------------------
  // What stands in the text, and where reading stops

  /** A field is written behind those before it: key, equals sign, escaped value, blank or ampersand. */
  lemma FieldIsWritten(format: Format, fields: Pairs, key: Text, value: Text)
    ensures Serialize(format, fields + [(key, value)])
      == Serialize(format, fields)
         + (if format == Line then key + "=" + Escape(SingleLine, value) + " " else key + "=" + CString(EscapeUrl(value)) + "&")
  {
    SerializeOfSum(format, fields, [(key, value)]);
    SerializeOne(format, (key, value));
  }

  function UpperHex(n: nat): (c: Octet)
    requires n < 16
  {
    (n + if n < 10 then 48 else 55) as char
  }

  /** What the URL form writes for a character. */
  lemma EscapeUrlOfChar(c: Octet)
    ensures EscapeUrl([c]) ==
      if c == ' ' then "+"
      else if '0' <= c <= '9' || 'A' <= c <= 'Z' || 'a' <= c <= 'z' || c in "-.@_" || c as int == 0 then [c]
      else ['%', UpperHex(c as int / 16), UpperHex(c as int % 16)]
  {
    assert [c][1..] == [];
    HexIsUpper(c as int / 16);
    HexIsUpper(c as int % 16);
    hide HEX_DIGITS, UpperHex;
  }

  lemma HexIsUpper(n: nat)
    requires n < 16
    ensures HEX_DIGITS[n] == UpperHex(n)
  {}

  lemma {:induction false} EscapeUrlOfSum(a: Text, b: Text)
    ensures EscapeUrl(a + b) == EscapeUrl(a) + EscapeUrl(b)
  {
    hide EscapeUrlOne;
    if a == [] {
      assert a + b == b;
    } else {
      assert (a + b)[1..] == a[1..] + b;
      EscapeUrlOfSum(a[1..], b);
      Serializer.AppendAssociates(EscapeUrlOne(a[0]), EscapeUrl(a[1..]), EscapeUrl(b));
    }
  }

  /** After any fields, a character that can begin no key ends the reading: what was found stays, and
      nothing behind it is looked at. */
  lemma NothingBehindAnError(format: Format, fields: Pairs, bad: Octet, rest: Text)
    requires GoodKeys(fields) && !IsAlnum(bad) && bad != Separator(format)
    ensures Scan(format, FRESH, Serialize(format, fields) + ([bad] + rest)) == RawFields(format, fields)
  {
    ScanFields(format, fields, [bad] + rest);
    assert Scan(format, FRESH, [bad] + rest) == [];
    assert RawFields(format, fields) + [] == RawFields(format, fields);
  }

  /** A second equals sign in a field ends the reading too; the field itself counts only when that sign was
      the last character. */
  lemma SecondEqualsSign(format: Format, key: Text, raw: Text, rest: Text)
    requires IsKey(key) && Plain(format, raw)
    ensures Scan(format, FRESH, key + "=" + (raw + ("=" + rest))) == if rest == [] then [(key, raw)] else []
  {
    ScanToValue(format, key, raw + ("=" + rest));
    ScanValue(format, key, [], raw, "=" + rest);
    assert [] + raw == raw && ("=" + rest)[1..] == rest;
  }

  // ---------------------------------------------------------------------------------------------
  // The loops and the class

  method EscapeUrlText(s: Text) returns (out: Text)
    ensures out == EscapeUrl(s)
  {
    out := "";
    var i := 0;
    assert s[0..] == s;
    while i < |s|
      invariant i <= |s| && EscapeUrl(s) == out + EscapeUrl(s[i..])
    {
      assert s[i..][0] == s[i] && s[i..][1..] == s[i+1..];
      Serializer.AppendAssociates(out, EscapeUrlOne(s[i]), EscapeUrl(s[i+1..]));
      if s[i] == ' ' {
        out := out + "+";
      } else if IsUrlSafe(s[i]) || s[i] as int == 0 {
        out := out + [s[i]];
      } else {
        out := out + ['%', HEX_DIGITS[s[i] as int / 16], HEX_DIGITS[s[i] as int % 16]];
      }
      i := i + 1;
    }
  }

  ghost function Onto(out: Text, r: Result<Text>): Result<Text> {
    match r
    case Success(s) => Success(out + s)
    case Failure => Failure
  }

  lemma OntoNothing(r: Result<Text>)
    ensures Onto([], r) == r
  {
    if r.Success? {
      assert [] + r.value == r.value;
    }
  }

  lemma OntoPrepend(out: Text, c: Octet, r: Result<Text>)
    ensures Onto(out, Prepend(c, r)) == Onto(out + [c], r)
  {
    if r.Success? {
      Serializer.AppendAssociates(out, [c], r.value);
    }
  }

  /** None when a code is cut off, where the source throws. */
  method UnescapeUrlText(s: Text) returns (r: Result<Text>)
    ensures r == UnescapeUrl(s)
  {
    var out: Text := "";
    var i := 0;
    assert s[0..] == s;
    OntoNothing(UnescapeUrl(s));
    while i < |s|
      invariant i <= |s| && UnescapeUrl(s) == Onto(out, UnescapeUrl(s[i..]))
    {
      assert s[i..][0] == s[i] && s[i..][1..] == s[i+1..];
      if s[i] == '+' {
        OntoPrepend(out, ' ', UnescapeUrl(s[i+1..]));
        out := out + " ";
        i := i + 1;
      } else if s[i] == '%' {
        if i + 1 == |s| {
          return Failure;
        }
        assert s[i..][1] == s[i+1] && s[i..][2..] == s[i+2..];
        if s[i+1] == '%' {
          OntoPrepend(out, '%', UnescapeUrl(s[i+2..]));
          out := out + "%";
          i := i + 2;
        } else {
          if i + 2 == |s| {
            return Failure;
          }
          assert s[i..][2] == s[i+2] && s[i..][3..] == s[i+3..];
          OntoPrepend(out, HexByte(s[i+1], s[i+2]), UnescapeUrl(s[i+3..]));
          out := out + [HexByte(s[i+1], s[i+2])];
          i := i + 3;
        }
      } else {
        OntoPrepend(out, s[i], UnescapeUrl(s[i+1..]));
        out := out + [s[i]];
        i := i + 1;
      }
    }
    assert out + [] == out;
    return Success(out);
  }

  class KeyValueSerializer {
    const format: Format
    var output: Text
    var fields: map<Text, Text>

    constructor (format: Format)
      ensures this.format == format && output == [] && fields == map[]
    {
      this.format := format;
      output, fields := [], map[];
    }

    method AddString(key: Text, value: Text)
      modifies this`output
      ensures output == old(output) + Field(format, (key, value))
    {
      var escapedValue: Text;
      if format == Line {
        escapedValue := EscapeText(SingleLine, value);
      } else {
        escapedValue := EscapeUrlText(value);
        escapedValue := CString(escapedValue);
      }
      output := output + (key + "=" + escapedValue + [Separator(format)]);
    }

    method DecodeText(value: Text) returns (r: Result<Text>)
      ensures r == DecodeValue(format, value)
    {
      if format == Line {
        var text := UnescapeText(SingleLine, value);
        r := Success(text);
      } else {
        r := UnescapeUrlText(value);
      }
    }

    /** One character of the scan; the key and value found so far. */
    method ScanCharacter(state: State, key: Text, value: Text, c: Octet) returns (state': State, key': Text, value': Text)
      ensures Scanner(state', key', value') == ScanOne(format, Scanner(state, key, value), c)
    {
      state', key', value' := state, key, value;
      match state {
        case Start =>
          if c == Separator(format) {
          } else if IsAlnum(c) {
            state', key' := InKey, [c];
          } else {
            state' := Error;
          }
        case InKey =>
          if IsAlnum(c) {
            key' := key + [c];
          } else if c == '=' {
            state', value' := InValue, [];
          } else {
            state' := Error;
          }
        case InValue =>
          if c == '=' {
            state' := Error;
          } else if c == Separator(format) {
            state' := Start;
          } else {
            value' := value + [c];
          }
        case Error =>
      }
    }

    method DeSerialize(text: Text) returns (ok: bool)
      modifies this`fields
      ensures ok ==> Collect(format, Scan(format, FRESH, Trim(text)), old(fields)) == Success(fields)
      ensures !ok ==> Collect(format, Scan(format, FRESH, Trim(text)), old(fields)) == Failure
    {
      var input := Trim(text);
      var state, key, value := Start, [], [];
      var i := 0;
      assert input[0..] == input;
      while i < |input| && state != Error
        invariant i <= |input|
        invariant Collect(format, Scan(format, FRESH, input), old(fields))
          == Collect(format, Scan(format, Scanner(state, key, value), input[i..]), fields)
      {
        assert input[i..][0] == input[i] && input[i..][1..] == input[i+1..];
        state, key, value := ScanCharacter(state, key, value, input[i]);
        if state == Start || i == |input| - 1 {
          if key != [] {
            ghost var rest := Scan(format, Scanner(state, [], []), input[i+1..]);
            assert ([(key, value)] + rest)[1..] == rest;
            var decoded := DecodeText(value);
            if decoded.Failure? {
              return false;
            }
            fields := Insert(fields, key, decoded.value);
            key, value := [], [];
          }
        }
        i := i + 1;
      }
      return true;
    }
  }
}
