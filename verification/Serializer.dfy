/** Lists and maps of strings packed into one string: elements separated by commas, keys and values
    by colons, with percent escapes so that nothing inside is taken for a separator. */
module Serializer {
  import opened Common
  import opened Texts

  /** The three percent escapes of the source; they differ in what they protect. */
  datatype Scheme = Csv | Pair | SingleLine

  /** The letter that stands for a protected character behind the percent sign. */
  function Letter(scheme: Scheme, c: Octet): (r: Option<Octet>) {
    if c == '%' then Some('p')
    else match scheme
      case Csv => if c == ',' then Some('c') else None
      case Pair => if c == ':' then Some('k') else None
      case SingleLine => if c == ' ' then Some('s') else if c == '=' then Some('e') else None
  }

  /** What a letter behind the percent sign stands for; other letters are dropped. */
  function Meaning(scheme: Scheme, letter: Octet): (r: Text) {
    if letter == 'p' then "%"
    else match scheme
      case Csv => if letter == 'c' then "," else ""
      case Pair => if letter == 'k' then ":" else ""
      case SingleLine => if letter == 's' then " " else if letter == 'e' then "=" else ""
  }

  function EscapeOne(scheme: Scheme, c: Octet): (r: Text) {
    match Letter(scheme, c)
    case Some(l) => ['%', l]
    case None => [c]
  }

  function Escape(scheme: Scheme, s: Text): (r: Text) {
    if s == [] then [] else EscapeOne(scheme, s[0]) + Escape(scheme, s[1..])
  }

  /** A percent sign at the very end stands for nothing. */
  function Unescape(scheme: Scheme, s: Text): (r: Text) {
    if s == [] then []
    else if s[0] != '%' then [s[0]] + Unescape(scheme, s[1..])
    else if |s| == 1 then []
    else Meaning(scheme, s[1]) + Unescape(scheme, s[2..])
  }

  predicate Protected(scheme: Scheme, c: Octet) { Letter(scheme, c).Some? }

  /** Escaping loses nothing. */
  lemma {:induction false} EscapeRoundTrip(scheme: Scheme, s: Text)
    ensures Unescape(scheme, Escape(scheme, s)) == s
  {
    if s == [] {
    } else {
      EscapeRoundTrip(scheme, s[1..]);
      var one, rest := EscapeOne(scheme, s[0]), Escape(scheme, s[1..]);
      assert (one + rest)[|one|..] == rest;
      assert s == [s[0]] + s[1..];
      assert Letter(scheme, s[0]).Some? ==> Meaning(scheme, one[1]) == [s[0]];
    }
  }

  /** No protected character but the percent sign is left. */
  lemma {:induction false} EscapeProtects(scheme: Scheme, s: Text, c: Octet)
    requires Protected(scheme, c) && c != '%'
    ensures c !in Escape(scheme, s)
  {
    if s == [] {
    } else {
      EscapeProtects(scheme, s[1..], c);
    }
  }

  lemma {:induction false} EscapeOfSum(scheme: Scheme, a: Text, b: Text)
    ensures Escape(scheme, a + b) == Escape(scheme, a) + Escape(scheme, b)
  {
    if a == [] {
      assert a + b == b;
    } else {
      assert (a + b)[1..] == a[1..] + b;
      EscapeOfSum(scheme, a[1..], b);
      AppendAssociates(EscapeOne(scheme, a[0]), Escape(scheme, a[1..]), Escape(scheme, b));
    }
  }

  /** Character by character: what escaping writes for each, ... */
  lemma EscapeOfChar(scheme: Scheme, c: Octet)
    ensures Escape(scheme, [c]) ==
      if c == '%' then "%p"
      else if scheme == Csv && c == ',' then "%c"
      else if scheme == Pair && c == ':' then "%k"
      else if scheme == SingleLine && c == ' ' then "%s"
      else if scheme == SingleLine && c == '=' then "%e"
      else [c]
  {
    assert [c][1..] == [];
  }

  /** ... and what is read for a percent sign and the letter behind it, or for one at the end. */
  lemma UnescapeOfCode(scheme: Scheme, l: Octet, rest: Text)
    ensures Unescape(scheme, ['%', l] + rest) ==
      (if l == 'p' then "%"
       else if scheme == Csv && l == 'c' then ","
       else if scheme == Pair && l == 'k' then ":"
       else if scheme == SingleLine && l == 's' then " "
       else if scheme == SingleLine && l == 'e' then "="
       else "") + Unescape(scheme, rest)
    ensures Unescape(scheme, "%") == []
  {
    assert (['%', l] + rest)[2..] == rest;
  }

  lemma AppendAssociates<T>(a: seq<T>, b: seq<T>, c: seq<T>)
    ensures a + b + c == a + (b + c)
  {}

  /** Blanks that are not protected are escaped as themselves, so trimming can be done before or after. */
  lemma EscapeEnds(scheme: Scheme, s: Text)
    requires s != []
    ensures Escape(scheme, s) != []
    ensures var e := Escape(scheme, s);
      && (IsSpace(e[0]) <==> IsSpace(s[0]) && !Protected(scheme, s[0]))
      && (IsSpace(e[|e|-1]) <==> IsSpace(s[|s|-1]) && !Protected(scheme, s[|s|-1]))
  {
    var before, c := s[..|s|-1], s[|s|-1];
    assert s == before + [c];
    EscapeOfSum(scheme, before, [c]);
    assert Escape(scheme, [c]) == EscapeOne(scheme, c) + [];
  }

  // ---------------------------------------------------------------------------------------------
  // Lists

  function JoinCsv(list: seq<Text>): (r: Text) {
    if list == [] then []
    else if |list| == 1 then Escape(Csv, list[0])
    else Escape(Csv, list[0]) + "," + JoinCsv(list[1..])
  }

  /** The pieces between commas; an empty piece at the end is no piece. */
  function SplitCsv(s: Text, element: Text): (r: seq<Text>)
    decreases |s|
  {
    if s == [] then if element == [] then [] else [element]
    else if s[0] == ',' then [element] + SplitCsv(s[1..], [])
    else SplitCsv(s[1..], element + [s[0]])
  }

  function DecodeElements(elements: seq<Text>): (r: seq<Text>) {
    if elements == [] then [] else [Unescape(Csv, Trim(elements[0]))] + DecodeElements(elements[1..])
  }

  /** A string without any element leaves the default in place. */
  function GetCsv(s: Text, default: seq<Text>): (r: seq<Text>) {
    var elements := SplitCsv(s, []);
    if elements == [] then default else DecodeElements(elements)
  }

  lemma {:induction false} SplitTakes(element: Text, head: Text, rest: Text)
    requires ',' !in head
    ensures SplitCsv(head + rest, element) == SplitCsv(rest, element + head)
    decreases |head|
  {
    if head == [] {
      assert head + rest == rest && element + head == element;
    } else {
      assert (head + rest)[0] == head[0] && (head + rest)[1..] == head[1..] + rest;
      SplitTakes(element + [head[0]], head[1..], rest);
      assert element + [head[0]] + head[1..] == element + head;
    }
  }

  /** Every element with blanks trimmed off, without an empty last one. */
  function TrimAll(list: seq<Text>): (r: seq<Text>) {
    if list == [] then []
    else if |list| == 1 then if list[0] == [] then [] else [Trim(list[0])]
    else [Trim(list[0])] + TrimAll(list[1..])
  }

  lemma {:induction false} TrimEscapedLeft(scheme: Scheme, s: Text)
    requires !Protected(scheme, ' ')
    ensures TrimLeft(Escape(scheme, s)) == Escape(scheme, TrimLeft(s))
  {
    if s == [] {
    } else {
      EscapeEnds(scheme, s);
      if IsSpace(s[0]) {
        assert Escape(scheme, s) == [s[0]] + Escape(scheme, s[1..]);
        TrimEscapedLeft(scheme, s[1..]);
      }
    }
  }

  lemma {:induction false} TrimEscapedRight(scheme: Scheme, s: Text)
    requires !Protected(scheme, ' ')
    ensures TrimRight(Escape(scheme, s)) == Escape(scheme, TrimRight(s))
    decreases |s|
  {
    if s == [] {
    } else {
      EscapeEnds(scheme, s);
      var before, c := s[..|s|-1], s[|s|-1];
      if IsSpace(c) {
        assert s == before + [c];
        EscapeOfSum(scheme, before, [c]);
        assert Escape(scheme, [c]) == [c] + [];
        assert Escape(scheme, s)[..|Escape(scheme, s)|-1] == Escape(scheme, before);
        TrimEscapedRight(scheme, before);
      }
    }
  }

  lemma TrimEscaped(s: Text)
    ensures Unescape(Csv, Trim(Escape(Csv, s))) == Trim(s)
  {
    TrimEscapedLeft(Csv, s);
    TrimEscapedRight(Csv, TrimLeft(s));
    EscapeRoundTrip(Csv, Trim(s));
  }

  /** What a list comes back as. */
  lemma {:induction false} CsvComesBack(list: seq<Text>)
    ensures DecodeElements(SplitCsv(JoinCsv(list), [])) == TrimAll(list)
  {
    hide Unescape, Trim, EscapeOne, Meaning;
    if list == [] {
    } else {
      var head := Escape(Csv, list[0]);
      EscapeProtects(Csv, list[0], ',');
      TrimEscaped(list[0]);
      if |list| == 1 {
        SplitTakes([], head, []);
        assert head + [] == head && [] + head == head;
        if list[0] != [] {
          EscapeEnds(Csv, list[0]);
          assert [head][1..] == [];
        }
      } else {
        var rest := JoinCsv(list[1..]);
        SplitTakes([], head, "," + rest);
        assert head + "," + rest == head + ("," + rest) && [] + head == head;
        assert ("," + rest)[1..] == rest;
        CsvComesBack(list[1..]);
        var tail := SplitCsv(rest, []);
        assert ([head] + tail)[1..] == tail;
      }
    }
  }

  /** A list survives exactly when no element has blanks at its ends and the last one is not empty;
      the empty list and the list of one empty element come back as the default. */
  lemma CsvRoundTrip(list: seq<Text>, default: seq<Text>)
    ensures GetCsv(JoinCsv(list), default) == list <==>
      if list == [] || list == [[]] then list == default
      else (forall i | 0 <= i < |list| :: Trimmed(list[i])) && list[|list|-1] != []
  {
    CsvComesBack(list);
    if list != [] && list != [[]] {
      TrimAllIsIdentity(list);
      TrimAllNonEmpty(list);
    }
  }

  lemma {:induction false} TrimAllIsIdentity(list: seq<Text>)
    requires list != []
    ensures TrimAll(list) == list <==> (forall i | 0 <= i < |list| :: Trimmed(list[i])) && list[|list|-1] != []
  {
    hide Trimmed, Trim;
    TrimIsIdentity(list[0]);
    if |list| == 1 {
    } else {
      TrimAllIsIdentity(list[1..]);
    }
  }

  lemma TrimAllNonEmpty(list: seq<Text>)
    requires list != [] && list != [[]]
    ensures SplitCsv(JoinCsv(list), []) != [] 
  {
    CsvComesBack(list);
  }

  // ---------------------------------------------------------------------------------------------
  // Maps

  type Pairs = seq<(Text, Text)>

  function PairElement(pair: (Text, Text)): (r: Text) { Escape(Pair, pair.0) + ":" + Escape(Pair, pair.1) }

  function PairElements(pairs: Pairs): (r: seq<Text>)
    ensures |r| == |pairs| && forall i | 0 <= i < |pairs| :: r[i] == PairElement(pairs[i])
  {
    if pairs == [] then [] else [PairElement(pairs[0])] + PairElements(pairs[1..])
  }

  /** The source walks a sorted map; any order of the pairs is allowed here. */
  function JoinCsvMap(pairs: Pairs): (r: Text) { JoinCsv(PairElements(pairs)) }

  /** The position of the first colon, or the length. */
  function FindColon(s: Text): (n: nat)
    ensures n <= |s| && (n < |s| ==> s[n] == ':')
  {
    if s == [] || s[0] == ':' then 0 else 1 + FindColon(s[1..])
  }

  /** Inserting does not overwrite. */
  function Insert(m: map<Text, Text>, key: Text, value: Text): (r: map<Text, Text>) {
    if key in m then m else m[key := value]
  }

  /** Elements without a colon are an error; those before it stay inserted. */
  function InsertElements(elements: seq<Text>, m: map<Text, Text>): (r: Result<map<Text, Text>>)
    decreases |elements|
  {
    if elements == [] then Success(m)
    else
      var e, n := elements[0], FindColon(elements[0]);
      if n == |e| then Failure
      else InsertElements(elements[1..], Insert(m, Unescape(Pair, e[..n]), Unescape(Pair, e[n+1..])))
  }

  function GetCsvMap(s: Text, m: map<Text, Text>): (r: Result<map<Text, Text>>) {
    InsertElements(GetCsv(s, []), m)
  }

  /** Reading a map fails if and only if one of its elements has no colon. */
  lemma {:induction false} FailsIffNoColon(elements: seq<Text>, m: map<Text, Text>)
    ensures InsertElements(elements, m).Failure? <==> exists i :: 0 <= i < |elements| && ':' !in elements[i]
    decreases |elements|
  {
    if elements == [] {
    } else {
      var e, n := elements[0], FindColon(elements[0]);
      ColonFound(e);
      if n < |e| {
        FailsIffNoColon(elements[1..], Insert(m, Unescape(Pair, e[..n]), Unescape(Pair, e[n+1..])));
        assert forall i | 1 <= i < |elements| :: elements[i] == elements[1..][i-1];
      }
    }
  }

  lemma {:induction false} ColonFound(s: Text)
    ensures FindColon(s) == |s| <==> ':' !in s
    ensures ':' !in s[..FindColon(s)]
  {
    if s == [] || s[0] == ':' {
    } else {
      ColonFound(s[1..]);
      assert s[..FindColon(s)] == [s[0]] + s[1..][..FindColon(s[1..])];
    }
  }

  function InsertPairs(pairs: Pairs, m: map<Text, Text>): (r: map<Text, Text>)
    decreases |pairs|
  {
    if pairs == [] then m else InsertPairs(pairs[1..], Insert(m, pairs[0].0, pairs[0].1))
  }

  predicate DistinctKeys(pairs: Pairs) {
    forall i, j | 0 <= i < j < |pairs| :: pairs[i].0 != pairs[j].0
  }

  function TrimPairs(pairs: Pairs): (r: Pairs)
    ensures |r| == |pairs|
    ensures forall i | 0 <= i < |pairs| :: r[i] == (TrimLeft(pairs[i].0), TrimRight(pairs[i].1))
  {
    if pairs == [] then [] else [(TrimLeft(pairs[0].0), TrimRight(pairs[0].1))] + TrimPairs(pairs[1..])
  }

  lemma {:induction false} FindColonSkips(a: Text, b: Text)
    requires ':' !in a
    ensures FindColon(a + ":" + b) == |a|
  {
    var s := a + ":" + b;
    if a == [] {
      assert s[0] == ':';
    } else {
      assert s[1..] == a[1..] + ":" + b;
      FindColonSkips(a[1..], b);
    }
  }

  lemma {:induction false} TrimLeftOfSum(a: Text, b: Text)
    requires b != [] && !IsSpace(b[0])
    ensures TrimLeft(a + b) == TrimLeft(a) + b
  {
    if a == [] {
      assert a + b == b;
    } else {
      assert (a + b)[1..] == a[1..] + b;
      if IsSpace(a[0]) {
        TrimLeftOfSum(a[1..], b);
      }
    }
  }

  /** Trimming an element trims the start of its key and the end of its value. */
  lemma TrimPairElement(pair: (Text, Text))
    ensures Trim(PairElement(pair)) == PairElement((TrimLeft(pair.0), TrimRight(pair.1)))
  {
    var k, v := Escape(Pair, pair.0), Escape(Pair, pair.1);
    TrimLeftOfSum(k, ":" + v);
    assert k + ":" + v == k + (":" + v);
    TrimEscapedLeft(Pair, pair.0);
    var k' := Escape(Pair, TrimLeft(pair.0)) + ":";
    assert TrimLeft(k) + (":" + v) == k' + v;
    TrimRightOfSum(k', v);
    TrimEscapedRight(Pair, pair.1);
  }

  lemma {:induction false} ElementsComeBack(pairs: Pairs, m: map<Text, Text>)
    ensures InsertElements(TrimAll(PairElements(pairs)), m) == Success(InsertPairs(TrimPairs(pairs), m))
    decreases |pairs|
  {
    if pairs == [] {
    } else {
      var elements := PairElements(pairs);
      assert elements[1..] == PairElements(pairs[1..]);
      TrimPairElement(pairs[0]);
      var (k, v) := (TrimLeft(pairs[0].0), TrimRight(pairs[0].1));
      assert TrimAll(elements) == [PairElement((k, v))] + TrimAll(elements[1..]);
      EscapeProtects(Pair, k, ':');
      FindColonSkips(Escape(Pair, k), Escape(Pair, v));
      EscapeRoundTrip(Pair, k);
      EscapeRoundTrip(Pair, v);
      var e := PairElement((k, v));
      assert e[..|Escape(Pair, k)|] == Escape(Pair, k) && e[|Escape(Pair, k)|+1..] == Escape(Pair, v);
      assert TrimPairs(pairs)[0] == (k, v) && TrimPairs(pairs)[1..] == TrimPairs(pairs[1..]);
      ElementsComeBack(pairs[1..], Insert(m, k, v));
    }
  }

  /** What a map comes back as: its pairs, keys trimmed on the left and values on the right. */
  lemma MapComesBack(pairs: Pairs)
    ensures GetCsvMap(JoinCsvMap(pairs), map[]) == Success(InsertPairs(TrimPairs(pairs), map[]))
  {
    var elements := PairElements(pairs);
    CsvComesBack(elements);
    ElementsComeBack(pairs, map[]);
    assert pairs == [] ==> TrimAll(elements) == [];
  }

  lemma {:induction false} InsertedKeys(pairs: Pairs, m: map<Text, Text>)
    ensures InsertPairs(pairs, m).Keys == m.Keys + set i | 0 <= i < |pairs| :: pairs[i].0
    ensures forall k | k in m :: InsertPairs(pairs, m)[k] == m[k]
    decreases |pairs|
  {
    if pairs == [] {
    } else {
      InsertedKeys(pairs[1..], Insert(m, pairs[0].0, pairs[0].1));
      assert forall i | 1 <= i < |pairs| :: pairs[i] == pairs[1..][i-1];
    }
  }

  lemma {:induction false} InsertedValue(pairs: Pairs, m: map<Text, Text>, i: nat)
    requires i < |pairs| && DistinctKeys(pairs) && pairs[i].0 !in m
    ensures pairs[i].0 in InsertPairs(pairs, m) && InsertPairs(pairs, m)[pairs[i].0] == pairs[i].1
    decreases |pairs|
  {
    var n := Insert(m, pairs[0].0, pairs[0].1);
    if i == 0 {
      InsertedKeys(pairs[1..], n);
    } else {
      assert forall j | 0 <= j < |pairs| - 1 :: pairs[1..][j] == pairs[j+1];
      InsertedValue(pairs[1..], n, i - 1);
    }
  }

  /** No key starts and no value ends with a blank. */
  predicate Steady(pairs: Pairs) {
    forall i | 0 <= i < |pairs| ::
      (pairs[i].0 == [] || !IsSpace(pairs[i].0[0])) && (pairs[i].1 == [] || !IsSpace(pairs[i].1[|pairs[i].1|-1]))
  }

  /** A map survives exactly when no key starts and no value ends with a blank. */
  lemma CsvMapRoundTrip(pairs: Pairs)
    requires DistinctKeys(pairs)
    ensures GetCsvMap(JoinCsvMap(pairs), map[]) == Success(InsertPairs(pairs, map[])) <==> Steady(pairs)
  {
    MapComesBack(pairs);
    var trimmed := TrimPairs(pairs);
    forall i | 0 <= i < |pairs|
      ensures trimmed[i].0 == pairs[i].0 <==> pairs[i].0 == [] || !IsSpace(pairs[i].0[0])
      ensures trimmed[i].1 == pairs[i].1 <==> pairs[i].1 == [] || !IsSpace(pairs[i].1[|pairs[i].1|-1])
    {
      TrimLeftKeepsEnd(pairs[i].0);
      TrimRightKeepsStart(pairs[i].1);
    }
    if Steady(pairs) {
      assert trimmed == pairs;
    } else if i :| 0 <= i < |pairs| && trimmed[i].0 != pairs[i].0 {
      UnsteadyKey(pairs, i);
    } else {
      var i :| 0 <= i < |pairs| && trimmed[i].1 != pairs[i].1;
      assert DistinctKeys(trimmed);
      InsertedValue(pairs, map[], i);
      InsertedValue(trimmed, map[], i);
    }
  }

  lemma UnsteadyKey(pairs: Pairs, i: nat)
    requires i < |pairs| && TrimPairs(pairs)[i].0 != pairs[i].0
    ensures InsertPairs(TrimPairs(pairs), map[]) != InsertPairs(pairs, map[])
  {
    hide InsertPairs, TrimLeft, TrimRight, TrimPairs;
    var trimmed := TrimPairs(pairs);
    InsertedKeys(pairs, map[]);
    InsertedKeys(trimmed, map[]);
    forall j | 0 <= j < |trimmed| ensures trimmed[j].0 != pairs[i].0 {
      NoTrimmedText(pairs[i].0, pairs[j].0);
    }
    assert pairs[i].0 in InsertPairs(pairs, map[]).Keys;
    assert pairs[i].0 !in InsertPairs(trimmed, map[]).Keys;
  }

  /** Trimming never gives a text that could be trimmed. */
  lemma NoTrimmedText(a: Text, b: Text)
    requires TrimLeft(a) != a
    ensures TrimLeft(b) != a
  {
    TrimLeftKeepsEnd(a);
    TrimLeftKeepsEnd(b);
  }

  // ---------------------------------------------------------------------------------------------
  // The loops

  method EscapeText(scheme: Scheme, s: Text) returns (out: Text)
    ensures out == Escape(scheme, s)
  {
    out := "";
    var i := 0;
    assert s[0..] == s;
    while i < |s|
      invariant i <= |s| && Escape(scheme, s) == out + Escape(scheme, s[i..])
    {
      assert s[i..][0] == s[i] && s[i..][1..] == s[i+1..];
      AppendAssociates(out, EscapeOne(scheme, s[i]), Escape(scheme, s[i+1..]));
      var letter := Letter(scheme, s[i]);
      if letter.Some? {
        out := out + ['%', letter.value];
      } else {
        out := out + [s[i]];
      }
      i := i + 1;
    }
  }

  method UnescapeText(scheme: Scheme, s: Text) returns (out: Text)
    ensures out == Unescape(scheme, s)
  {
    out := "";
    var i := 0;
    assert s[0..] == s;
    while i < |s|
      invariant i <= |s| && Unescape(scheme, s) == out + Unescape(scheme, s[i..])
    {
      assert s[i..][0] == s[i] && s[i..][1..] == s[i+1..];
      if s[i] == '%' {
        i := i + 1;
        if i < |s| {
          assert s[i-1..][1] == s[i] && s[i-1..][2..] == s[i+1..];
          AppendAssociates(out, Meaning(scheme, s[i]), Unescape(scheme, s[i+1..]));
          out := out + Meaning(scheme, s[i]);
          i := i + 1;
        } else {
          assert out + [] == out;
        }
      } else {
        AppendAssociates(out, [s[i]], Unescape(scheme, s[i+1..]));
        out := out + [s[i]];
        i := i + 1;
      }
    }
  }

  lemma JoinStep(list: seq<Text>)
    requires list != []
    ensures JoinCsv(list) == Escape(Csv, list[0]) + ((if |list| > 1 then "," else "") + JoinCsv(list[1..]))
  {
    hide Escape;
    AppendAssociates(Escape(Csv, list[0]), ",", JoinCsv(list[1..]));
  }

  method AddCsv(list: seq<Text>) returns (csv: Text)
    ensures csv == JoinCsv(list)
  {
    hide Escape, JoinCsv;
    csv := "";
    var i := 0;
    assert list[0..] == list;
    assert JoinCsv([]) == "" by { NothingJoined(); }
    while i < |list|
      invariant i <= |list|
      invariant JoinCsv(list) == csv + (if 0 < i < |list| then "," else "") + JoinCsv(list[i..])
    {
      assert list[i..][0] == list[i] && list[i..][1..] == list[i+1..];
      JoinStep(list[i..]);
      if i > 0 {
        csv := csv + ",";
      } else {
        assert csv + "" == csv;
      }
      var escapedValue := EscapeText(Csv, list[i]);
      ghost var separator, rest := if i + 1 < |list| then "," else "", JoinCsv(list[i+1..]);
      AppendAssociates(csv, escapedValue, separator + rest);
      csv := csv + escapedValue;
      AppendAssociates(csv, separator, rest);
      i := i + 1;
    }
    assert list[i..] == [] && csv + "" + "" == csv;
  }

  lemma NothingJoined()
    ensures JoinCsv([]) == ""
  {}

  method GetCsvElements(s: Text, default: seq<Text>) returns (value: seq<Text>)
    ensures value == GetCsv(s, default)
  {
    value := default;
    var element: Text := "";
    var first := true;
    ghost var done: seq<Text> := [];
    var i := 0;
    assert s[0..] == s && [] + SplitCsv(s, []) == SplitCsv(s, []);
    while i < |s|
      invariant i <= |s| && SplitCsv(s, []) == done + SplitCsv(s[i..], element)
      invariant first == (done == []) && value == if first then default else DecodeElements(done)
    {
      assert s[i..][0] == s[i] && s[i..][1..] == s[i+1..];
      if s[i] == ',' {
        if first {
          first := false;
          value := [];
        }
        DecodeOneMore(done, element);
        AppendAssociates(done, [element], SplitCsv(s[i+1..], []));
        done := done + [element];
        element := Trim(element);
        var unescaped := UnescapeText(Csv, element);
        value := value + [unescaped];
        element := "";
      } else {
        element := element + [s[i]];
      }
      i := i + 1;
    }
    assert done + [] == done;
    if element != [] {
      if first {
        value := [];
      }
      DecodeOneMore(done, element);
      element := Trim(element);
      var unescaped := UnescapeText(Csv, element);
      value := value + [unescaped];
    }
  }

  lemma {:induction false} DecodeOneMore(elements: seq<Text>, element: Text)
    ensures DecodeElements(elements + [element]) == DecodeElements(elements) + [Unescape(Csv, Trim(element))]
  {
    if elements == [] {
      assert [element][1..] == [];
      assert [] + [element] == [element];
    } else {
      assert (elements + [element])[1..] == elements[1..] + [element];
      DecodeOneMore(elements[1..], element);
    }
  }

  method AddCsvMap(pairs: Pairs) returns (csv: Text)
    ensures csv == JoinCsvMap(pairs)
  {
    var elements: seq<Text> := [];
    var i := 0;
    assert pairs[0..] == pairs;
    while i < |pairs|
      invariant i <= |pairs| && PairElements(pairs) == elements + PairElements(pairs[i..])
    {
      assert pairs[i..][0] == pairs[i] && pairs[i..][1..] == pairs[i+1..];
      var key := EscapeText(Pair, pairs[i].0);
      var value := EscapeText(Pair, pairs[i].1);
      AppendAssociates(elements, [key + ":" + value], PairElements(pairs[i+1..]));
      elements := elements + [key + ":" + value];
      i := i + 1;
    }
    assert elements + [] == elements;
    csv := AddCsv(elements);
  }

  /** A missing colon throws; the pairs before it were inserted. */
  method GetCsvMapPairs(s: Text, m: map<Text, Text>) returns (r: Result<map<Text, Text>>)
    ensures r == GetCsvMap(s, m)
  {
    var list := GetCsvElements(s, []);
    var value := m;
    var i := 0;
    assert list[0..] == list;
    while i < |list|
      invariant i <= |list| && GetCsvMap(s, m) == InsertElements(list[i..], value)
    {
      assert list[i..][0] == list[i] && list[i..][1..] == list[i+1..];
      var colon := FindColon(list[i]);
      if colon == |list[i]| {
        return Failure;
      }
      var key := UnescapeText(Pair, list[i][..colon]);
      var val := UnescapeText(Pair, list[i][colon+1..]);
      value := Insert(value, key, val);
      i := i + 1;
    }
    return Success(value);
  }
}
