/** Escaping raw line breaks inside JSON string literals of a hand-written draft. */
module JsonRepair {
  /** Where the scanner stands: inside a string literal or not, and right after a backslash or not. */
  datatype Scan = Scan(inString: bool, escaped: bool)

  const START := Scan(false, false)

  function Next(st: Scan, c: char): Scan {
    if st.escaped then Scan(st.inString, false)
    else if c == '\\' then Scan(st.inString, true)
    else if c == '"' then Scan(!st.inString, false)
    else st
  }

  function Final(s: string, st: Scan): Scan {
    if s == "" then st else Final(s[1..], Next(st, s[0]))
  }

  /** A line break that the JSON grammar does not allow at this point. */
  predicate RawBreak(st: Scan, c: char) {
    st.inString && !st.escaped && (c == '\n' || c == '\r')
  }

  function Emit(st: Scan, c: char): string {
    if !RawBreak(st, c) then [c] else if c == '\n' then "\\n" else ""
  }

  function Repair(s: string, st: Scan): string {
    if s == "" then "" else Emit(st, s[0]) + Repair(s[1..], Next(st, s[0]))
  }

  lemma RepairFrom(block: string, i: nat, st: Scan, out: string)
    requires i < |block|
    ensures out + Repair(block[i..], st) == out + Emit(st, block[i]) + Repair(block[i + 1..], Next(st, block[i]))
  {
    assert block[i..][1..] == block[i + 1..];
  }

  method RepairJson(block: string) returns (out: string)
    ensures out == Repair(block, START)
  {
    out := "";
    var inString, escaped := false, false;
    for i := 0 to |block|
      invariant out + Repair(block[i..], Scan(inString, escaped)) == Repair(block, START)
    {
      var c := block[i];
      RepairFrom(block, i, Scan(inString, escaped), out);
      if escaped {
        out, escaped := out + [c], false;
      } else if c == '\\' {
        out, escaped := out + [c], true;
      } else if c == '"' {
        out, inString := out + [c], !inString;
      } else if inString && (c == '\n' || c == '\r') {
        if c == '\n' {
          out := out + "\\n";
        }
      } else {
        out := out + [c];
      }
    }
  }

  // ---------------------------------------------------------------- what a reader decodes

  /** A document as a reader sees it: text outside strings, string delimiters, decoded characters, escapes the reader
      resolves later, and carriage returns that stood raw in a string. */
  datatype Unit = Outer(c: char) | Quote | Text(c: char) | Escape(c: char) | RawReturn

  /** Section 7 of RFC 8259: the single-character escapes. */
  function DecodeEscape(c: char): Unit {
    match c
    case 'n' => Text('\n')
    case 'r' => Text('\r')
    case 't' => Text('\t')
    case '"' => Text('"')
    case '\\' => Text('\\')
    case '/' => Text('/')
    case _ => Escape(c)
  }

  function Units(st: Scan, c: char): seq<Unit> {
    if !st.inString then
      if c == '"' && !st.escaped then [Quote] else [Outer(c)]
    else if st.escaped then [DecodeEscape(c)]
    else if c == '\\' then []
    else if c == '"' then [Quote]
    else if c == '\r' then [RawReturn]
    else [Text(c)]
  }

  function Meaning(s: string, st: Scan): seq<Unit> {
    if s == "" then [] else Units(st, s[0]) + Meaning(s[1..], Next(st, s[0]))
  }

  function WithoutReturns(units: seq<Unit>): seq<Unit> {
    if units == [] then []
    else if units[0] == RawReturn then WithoutReturns(units[1..])
    else [units[0]] + WithoutReturns(units[1..])
  }

  /** No line break stands raw and unescaped inside a string. */
  predicate Fine(s: string, st: Scan) {
    s == "" || (!RawBreak(st, s[0]) && Fine(s[1..], Next(st, s[0])))
  }

  // ---------------------------------------------------------------- repair keeps the meaning

  lemma ReturnsSplit(units: seq<Unit>, rest: seq<Unit>)
    requires |units| <= 1
    ensures WithoutReturns(units + rest) == WithoutReturns(units) + WithoutReturns(rest)
  {
    if |units| == 1 {
      assert (units + rest)[1..] == rest && units[1..] == [];
    } else {
      assert units + rest == rest;
    }
  }

  /** Only a raw carriage return has a unit that the repair drops. */
  lemma PlainUnitsKept(st: Scan, c: char)
    requires !RawBreak(st, c)
    ensures WithoutReturns(Units(st, c)) == Units(st, c)
  {
    var units := Units(st, c);
    if units != [] {
      assert units[0] != RawReturn && units[1..] == [] && WithoutReturns([]) == [];
    }
  }

  lemma PlainFollows(st: Scan, c: char, rest: string)
    requires !RawBreak(st, c)
    ensures Final([c] + rest, st) == Final(rest, Next(st, c))
    ensures Meaning([c] + rest, st) == WithoutReturns(Units(st, c)) + Meaning(rest, Next(st, c))
    ensures Fine([c] + rest, st) <==> Fine(rest, Next(st, c))
  {
    var s := [c] + rest;
    assert s[0] == c && s[1..] == rest;
    PlainUnitsKept(st, c);
  }

  lemma LineFeedFollows(st: Scan, rest: string)
    requires RawBreak(st, '\n')
    ensures Final("\\n" + rest, st) == Final(rest, st)
    ensures Meaning("\\n" + rest, st) == [Text('\n')] + Meaning(rest, st)
    ensures Fine("\\n" + rest, st) <==> Fine(rest, st)
  {
    var s := "\\n" + rest;
    assert s[1..] == "n" + rest && s[1..][1..] == rest;
  }

  /** The replacement for one character moves the scanner exactly as the character itself does. */
  lemma EmitFollows(st: Scan, c: char, rest: string)
    ensures Final(Emit(st, c) + rest, st) == Final(rest, Next(st, c))
    ensures Meaning(Emit(st, c) + rest, st) == WithoutReturns(Units(st, c)) + Meaning(rest, Next(st, c))
    ensures Fine(Emit(st, c) + rest, st) <==> Fine(rest, Next(st, c))
  {
    if !RawBreak(st, c) {
      PlainFollows(st, c, rest);
    } else if c == '\n' {
      LineFeedFollows(st, rest);
    } else {
      assert "" + rest == rest;
    }
  }

  /** After the repair the scanner ends where it ended before, no unescaped raw break is left in a string, and a reader
      sees the same document: outside text, string boundaries and contents are kept, a raw line feed becomes a decoded
      one, and only raw carriage returns are gone. */
  lemma {:induction false} RepairKeepsMeaning(s: string, st: Scan)
    ensures Final(Repair(s, st), st) == Final(s, st)
    ensures Fine(Repair(s, st), st)
    ensures Meaning(Repair(s, st), st) == WithoutReturns(Meaning(s, st))
  {
    if s != "" {
      var next := Next(st, s[0]);
      RepairKeepsMeaning(s[1..], next);
      EmitFollows(st, s[0], Repair(s[1..], next));
      ReturnsSplit(Units(st, s[0]), Meaning(s[1..], next));
    }
  }

  lemma {:induction false} FineUnchanged(s: string, st: Scan)
    requires Fine(s, st)
    ensures Repair(s, st) == s
  {
    if s != "" {
      FineUnchanged(s[1..], Next(st, s[0]));
    }
  }

  /** Exactly the documents that were already fine come back unchanged. */
  lemma UnchangedExactlyWhenFine(s: string, st: Scan)
    ensures Repair(s, st) == s <==> Fine(s, st)
  {
    RepairKeepsMeaning(s, st);
    if Fine(s, st) {
      FineUnchanged(s, st);
    }
  }

  /** Repairing twice is repairing once. */
  lemma RepairTwice(s: string, st: Scan)
    ensures Repair(Repair(s, st), st) == Repair(s, st)
  {
    RepairKeepsMeaning(s, st);
    FineUnchanged(Repair(s, st), st);
  }

  // ---------------------------------------------------------------- the text alone

  /** How many backslashes end right before position `n`. */
  function Backslashes(s: string, n: nat): nat
    requires n <= |s|
  {
    if n > 0 && s[n - 1] == '\\' then 1 + Backslashes(s, n - 1) else 0
  }

  /** The character at `n` is escaped: an odd number of backslashes stands right before it. */
  predicate EscapedAt(s: string, n: nat)
    requires n <= |s|
  {
    Backslashes(s, n) % 2 == 1
  }

  /** The quotes before position `n` that are not escaped. */
  function Quotes(s: string, n: nat): nat
    requires n <= |s|
  {
    if n == 0 then 0 else Quotes(s, n - 1) + if s[n - 1] == '"' && !EscapedAt(s, n - 1) then 1 else 0
  }

  /** Position `n` is inside a string: an odd number of them stands before it. */
  predicate InsideAt(s: string, n: nat)
    requires n <= |s|
  {
    Quotes(s, n) % 2 == 1
  }

  lemma {:induction false} FinalSnoc(s: string, c: char, st: Scan)
    ensures Final(s + [c], st) == Next(Final(s, st), c)
  {
    if s == "" {
      assert ("" + [c])[1..] == "";
    } else {
      assert (s + [c])[1..] == s[1..] + [c];
      FinalSnoc(s[1..], c, Next(st, s[0]));
    }
  }

  /** After any part of a text the scanner is right after an escaping backslash exactly when an odd run of backslashes
      ends there, and inside a string exactly when an odd number of unescaped quotes came before. */
  lemma {:induction false} ScannerFollowsText(s: string, n: nat)
    requires n <= |s|
    ensures Final(s[..n], START) == Scan(InsideAt(s, n), EscapedAt(s, n))
  {
    if n > 0 {
      ScannerFollowsText(s, n - 1);
      assert s[..n] == s[..n - 1] + [s[n - 1]];
      FinalSnoc(s[..n - 1], s[n - 1], START);
    }
  }

  /** A line break in a string that no backslash escapes. */
  predicate BreaksAt(s: string, i: nat)
    requires i < |s|
  {
    InsideAt(s, i) && !EscapedAt(s, i) && (s[i] == '\n' || s[i] == '\r')
  }

  /** What becomes of the first `n` characters: such a line feed is written as an escape, such a carriage return is left
      out, and everything else stays. */
  function Rewritten(s: string, n: nat): string
    requires n <= |s|
  {
    if n == 0 then ""
    else Rewritten(s, n - 1) + if !BreaksAt(s, n - 1) then [s[n - 1]] else if s[n - 1] == '\n' then "\\n" else ""
  }

  lemma {:induction false} RepairSplit(a: string, b: string, st: Scan)
    ensures Repair(a + b, st) == Repair(a, st) + Repair(b, Final(a, st))
  {
    if a == "" {
      assert a + b == b;
    } else {
      assert (a + b)[1..] == a[1..] + b;
      RepairSplit(a[1..], b, Next(st, a[0]));
    }
  }

  lemma {:induction false} RepairRewrites(s: string, n: nat)
    requires n <= |s|
    ensures Repair(s[..n], START) == Rewritten(s, n)
  {
    if n > 0 {
      RepairRewrites(s, n - 1);
      ScannerFollowsText(s, n - 1);
      assert s[..n] == s[..n - 1] + [s[n - 1]] && [s[n - 1]][1..] == "";
      RepairSplit(s[..n - 1], [s[n - 1]], START);
    }
  }

  /** The repair, told on the text alone. */
  lemma RepairOnText(s: string)
    ensures Repair(s, START) == Rewritten(s, |s|)
  {
    RepairRewrites(s, |s|);
    assert s[..|s|] == s;
  }

  lemma {:induction false} FineSplit(a: string, b: string, st: Scan)
    ensures Fine(a + b, st) <==> Fine(a, st) && Fine(b, Final(a, st))
  {
    if a == "" {
      assert a + b == b;
    } else {
      assert (a + b)[1..] == a[1..] + b;
      FineSplit(a[1..], b, Next(st, a[0]));
    }
  }

  lemma {:induction false} FineOnPrefix(s: string, n: nat)
    requires n <= |s|
    ensures Fine(s[..n], START) <==> forall i :: 0 <= i < n ==> !BreaksAt(s, i)
  {
    if n > 0 {
      FineOnPrefix(s, n - 1);
      ScannerFollowsText(s, n - 1);
      assert s[..n] == s[..n - 1] + [s[n - 1]] && [s[n - 1]][1..] == "";
      FineSplit(s[..n - 1], [s[n - 1]], START);
      assert Fine([s[n - 1]], Final(s[..n - 1], START)) <==> !BreaksAt(s, n - 1);
    }
  }

  /** A text is fine exactly when it has no such line break. */
  lemma FineOnText(s: string)
    ensures Fine(s, START) <==> forall i :: 0 <= i < |s| ==> !BreaksAt(s, i)
  {
    FineOnPrefix(s, |s|);
    assert s[..|s|] == s;
  }

  /** After the repair none is left, and exactly the texts without any come back unchanged. */
  lemma NoBreaksLeft(s: string)
    ensures forall i :: 0 <= i < |Repair(s, START)| ==> !BreaksAt(Repair(s, START), i)
    ensures Repair(s, START) == s <==> forall i :: 0 <= i < |s| ==> !BreaksAt(s, i)
  {
    RepairKeepsMeaning(s, START);
    FineOnText(Repair(s, START));
    FineOnText(s);
    UnchangedExactlyWhenFine(s, START);
  }

  // ---------------------------------------------------------------- a reader of pairs

  /** A reader that takes a backslash and the character behind it together (section 7 of RFC 8259), outside strings. */
  function ReadOutside(s: string): seq<Unit>
    decreases |s|
  {
    if s == "" then []
    else if s[0] == '\\' && |s| > 1 then [Outer('\\'), Outer(s[1])] + ReadOutside(s[2..])
    else if s[0] == '"' then [Quote] + ReadInside(s[1..])
    else [Outer(s[0])] + ReadOutside(s[1..])
  }

  /** And inside them; a backslash with nothing behind it stands for nothing. */
  function ReadInside(s: string): seq<Unit>
    decreases |s|
  {
    if s == "" then []
    else if s[0] == '\\' then if |s| > 1 then [DecodeEscape(s[1])] + ReadInside(s[2..]) else []
    else if s[0] == '"' then [Quote] + ReadOutside(s[1..])
    else if s[0] == '\r' then [RawReturn] + ReadInside(s[1..])
    else [Text(s[0])] + ReadInside(s[1..])
  }

  lemma MeaningOfPair(s: string, inside: bool)
    requires |s| > 1 && s[0] == '\\'
    ensures Meaning(s, Scan(inside, false))
         == (if inside then [DecodeEscape(s[1])] else [Outer('\\'), Outer(s[1])]) + Meaning(s[2..], Scan(inside, false))
  {
    var rest := s[1..];
    assert rest[0] == s[1] && rest[1..] == s[2..];
    assert Meaning(s, Scan(inside, false)) == Units(Scan(inside, false), '\\') + Meaning(rest, Scan(inside, true));
    assert Meaning(rest, Scan(inside, true)) == Units(Scan(inside, true), s[1]) + Meaning(s[2..], Scan(inside, false));
  }

  /** The units that the scanner's own reading gives are those of the reader of pairs. */
  lemma {:induction false} MeaningIsReading(s: string, inside: bool)
    ensures Meaning(s, Scan(inside, false)) == if inside then ReadInside(s) else ReadOutside(s)
    decreases |s|
  {
    if s == "" {
    } else if s[0] == '\\' {
      if |s| > 1 {
        MeaningOfPair(s, inside);
        MeaningIsReading(s[2..], inside);
      } else {
        assert s[1..] == "";
      }
    } else if s[0] == '"' {
      MeaningIsReading(s[1..], !inside);
    } else {
      MeaningIsReading(s[1..], inside);
    }
  }

  /** For that reader too the repaired text is the same document, with raw line feeds decoded and raw carriage returns
      gone. */
  lemma RepairKeepsDocument(s: string)
    ensures ReadOutside(Repair(s, START)) == WithoutReturns(ReadOutside(s))
  {
    RepairKeepsMeaning(s, START);
    MeaningIsReading(s, false);
    MeaningIsReading(Repair(s, START), false);
  }

  /** A line feed after a backslash is taken for an escape and stays raw. */
  lemma EscapedBreakStays()
    ensures Repair("\"\\\n\"", START) == "\"\\\n\""
  {
    var s := "\"\\\n\"";
    assert s[1..][1..] == s[2..] && s[2..][1..] == s[3..] && s[3..][1..] == "";
    assert Fine(s[3..], Scan(true, false)) && Fine(s[2..], Scan(true, true)) && Fine(s[1..], Scan(true, false));
    FineUnchanged(s, START);
  }

  // ---------------------------------------------------------------- finding bare objects in a reply

  /** Brace depth after the first `n` characters; a closing brace with nothing open is ignored. */
  function DepthAt(text: string, n: nat): nat
    requires n <= |text|
  {
    if n == 0 then 0
    else
      var d := DepthAt(text, n - 1);
      if text[n - 1] == '{' then d + 1 else if text[n - 1] == '}' && d > 0 then d - 1 else d
  }

  /** An outermost object: it opens at depth zero and ends where the depth first returns to zero. */
  ghost predicate IsObject(text: string, from: nat, to: nat) {
    && from < to <= |text| && text[from] == '{' && DepthAt(text, from) == 0 && DepthAt(text, to) == 0
    && forall i :: from < i < to ==> DepthAt(text, i) > 0
  }

  /** Finds exactly the outermost brace-delimited objects of a reply; one that is never closed is not among them. */
  method BareObjects(text: string) returns (spans: seq<(nat, nat)>)
    ensures forall from: nat, to: nat :: (from, to) in spans <==> IsObject(text, from, to)
  {
    spans := [];
    var depth, start := 0, 0;
    for i := 0 to |text|
      invariant depth == DepthAt(text, i)
      invariant depth > 0 ==> start < i && text[start] == '{' && DepthAt(text, start) == 0
                              && forall j :: start < j <= i ==> DepthAt(text, j) > 0
      invariant forall from: nat, to: nat :: (from, to) in spans <==> IsObject(text, from, to) && to <= i
    {
      ghost var before := spans;
      ObjectsEndingNext(text, i, i + 1, depth, start);
      if text[i] == '{' {
        if depth == 0 {
          start := i;
        }
        depth := depth + 1;
      } else if text[i] == '}' && depth > 0 {
        depth := depth - 1;
        if depth == 0 {
          spans := spans + [(start, i + 1)];
        }
      }
    }
  }

  /** At most one object ends at a given place: the one that is open there. */
  lemma ObjectsEndingNext(text: string, i: nat, end: nat, depth: nat, start: nat)
    requires i < |text| && end == i + 1 && depth == DepthAt(text, i)
    requires depth > 0 ==> start < i && text[start] == '{' && DepthAt(text, start) == 0
                           && forall j :: start < j <= i ==> DepthAt(text, j) > 0
    ensures forall from: nat :: IsObject(text, from, end) <==> depth == 1 && text[i] == '}' && from == start
  {
    forall from: nat | IsObject(text, from, end)
      ensures depth == 1 && text[i] == '}' && from == start
    {
      ObjectIsOpenOne(text, i, end, depth, start, from);
    }
    if depth == 1 && text[i] == '}' {
      assert DepthAt(text, end) == 0;
    }
  }

  lemma ObjectIsOpenOne(text: string, i: nat, end: nat, depth: nat, start: nat, from: nat)
    requires i < |text| && end == i + 1 && depth == DepthAt(text, i) && IsObject(text, from, end)
    requires depth > 0 ==> start < i && text[start] == '{' && DepthAt(text, start) == 0
                           && forall j :: start < j <= i ==> DepthAt(text, j) > 0
    ensures depth == 1 && text[i] == '}' && from == start
  {
    assert DepthAt(text, from + 1) == 1;
    assert from < i ==> DepthAt(text, i) > 0;
  }
}
