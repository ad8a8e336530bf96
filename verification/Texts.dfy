/** Strings as the source sees them: bytes, with the character classes of the C locale. */
module Texts {
  type Octet = c: char | c as int < 256 witness 'a'
  type Text = seq<Octet>

  predicate IsSpace(c: Octet) { c == ' ' || 9 <= c as int <= 13 }

  predicate IsAlnum(c: Octet) { '0' <= c <= '9' || 'A' <= c <= 'Z' || 'a' <= c <= 'z' }

  function TrimLeft(s: Text): (r: Text) {
    if s == [] || !IsSpace(s[0]) then s else TrimLeft(s[1..])
  }

  function TrimRight(s: Text): (r: Text) {
    if s == [] || !IsSpace(s[|s|-1]) then s else TrimRight(s[..|s|-1])
  }

  function Trim(s: Text): (r: Text) { TrimRight(TrimLeft(s)) }

  /** Nothing to trim on either side. */
  predicate Trimmed(s: Text) { s == [] || (!IsSpace(s[0]) && !IsSpace(s[|s|-1])) }

  lemma {:induction false} TrimLeftKeepsEnd(s: Text)
    ensures TrimLeft(s) == [] || TrimLeft(s)[|TrimLeft(s)|-1] == s[|s|-1]
    ensures TrimLeft(s) == [] || !IsSpace(TrimLeft(s)[0])
    ensures |TrimLeft(s)| <= |s|
    ensures TrimLeft(s) == s <==> s == [] || !IsSpace(s[0])
  {
    if s == [] || !IsSpace(s[0]) {
    } else {
      TrimLeftKeepsEnd(s[1..]);
    }
  }

  lemma {:induction false} TrimRightKeepsStart(s: Text)
    ensures TrimRight(s) <= s
    ensures TrimRight(s) == [] || !IsSpace(TrimRight(s)[|TrimRight(s)|-1])
    ensures TrimRight(s) == s <==> s == [] || !IsSpace(s[|s|-1])
  {
    if s == [] || !IsSpace(s[|s|-1]) {
    } else {
      TrimRightKeepsStart(s[..|s|-1]);
    }
  }

  lemma TrimIsIdentity(s: Text)
    ensures Trim(s) == s <==> Trimmed(s)
    ensures Trimmed(Trim(s))
  {
    TrimLeftKeepsEnd(s);
    TrimRightKeepsStart(TrimLeft(s));
  }

  /** Text that is not blank stops the trimming. */
  lemma {:induction false} TrimRightOfSum(a: Text, b: Text)
    requires a != [] && !IsSpace(a[|a|-1])
    ensures TrimRight(a + b) == a + TrimRight(b)
    decreases |b|
  {
    if b == [] {
      assert a + b == a;
    } else {
      assert (a + b)[..|a + b|-1] == a + b[..|b|-1];
      if IsSpace(b[|b|-1]) {
        TrimRightOfSum(a, b[..|b|-1]);
      }
    }
  }
}
