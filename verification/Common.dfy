/** Option and Result types and the string helpers that several components share.
    Characters are treated one by one; case mapping covers the ASCII letters. */
module Common {
  datatype Option<+T> = None | Some(value: T)

  predicate IsSpace(c: char) {
    c == ' ' || c == '\t' || c == '\n' || c == '\r'
  }

  predicate IsDigit(c: char) {
    '0' <= c <= '9'
  }

  function TrimLeft(s: string): string {
    if s != "" && IsSpace(s[0]) then TrimLeft(s[1..]) else s
  }

  function TrimRight(s: string): string {
    if s != "" && IsSpace(s[|s| - 1]) then TrimRight(s[..|s| - 1]) else s
  }

  /** JavaScript's `trim` and Python's `strip`. */
  function Trim(s: string): string {
    TrimRight(TrimLeft(s))
  }

  function LowerChar(c: char): char {
    if 'A' <= c <= 'Z' then (c as int + 32) as char else c
  }

  function UpperChar(c: char): char {
    if 'a' <= c <= 'z' then (c as int - 32) as char else c
  }

  function Lower(s: string): string {
    seq(|s|, i requires 0 <= i < |s| => LowerChar(s[i]))
  }

  function Upper(s: string): string {
    seq(|s|, i requires 0 <= i < |s| => UpperChar(s[i]))
  }

  /** Substring test, as `in` and `includes` do it. */
  predicate Contains(s: string, part: string)
    decreases |s|
  {
    part <= s || (s != "" && Contains(s[1..], part))
  }

  /** What `text.replace(/\D/g, '')` leaves. */
  function DigitsOf(s: string): (d: string)
    ensures forall c <- d :: IsDigit(c)
  {
    if s == "" then ""
    else if IsDigit(s[0]) then [s[0]] + DigitsOf(s[1..])
    else DigitsOf(s[1..])
  }

  lemma DigitsOfDigits(s: string)
    requires forall c <- s :: IsDigit(c)
    ensures DigitsOf(s) == s
  {
    if s != "" {
      DigitsOfDigits(s[1..]);
    }
  }

  lemma {:induction false} ContainsInside(a: string, part: string, b: string)
    ensures Contains(a + part + b, part)
  {
    if a == "" {
      assert a + part + b == part + b;
    } else {
      assert (a + part + b)[1..] == a[1..] + part + b;
      ContainsInside(a[1..], part, b);
    }
  }

  predicate OccursAt(s: string, part: string, i: nat) {
    i + |part| <= |s| && s[i..i + |part|] == part
  }

  lemma {:induction false} ContainedAt(s: string, part: string) returns (i: nat)
    requires Contains(s, part)
    ensures OccursAt(s, part, i)
    decreases |s|
  {
    if part <= s {
      i := 0;
    } else {
      var rest := ContainedAt(s[1..], part);
      i := rest + 1;
    }
  }

  lemma OccurringIsContained(s: string, part: string, i: nat)
    requires OccursAt(s, part, i)
    ensures Contains(s, part)
  {
    ContainsInside(s[..i], part, s[i + |part|..]);
    assert s == s[..i] + s[i..i + |part|] + s[i + |part|..];
  }

  /** The substring test finds exactly what occurs somewhere. */
  lemma ContainsExactly(s: string, part: string)
    ensures Contains(s, part) <==> exists i: nat :: OccursAt(s, part, i)
  {
    if Contains(s, part) {
      var i := ContainedAt(s, part);
    }
    if i: nat :| OccursAt(s, part, i) {
      OccurringIsContained(s, part, i);
    }
  }
}
