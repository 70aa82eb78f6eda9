/** The XML answer to a call or a text, and a reader for it. */
module Twiml {
  import opened Common
  import Money

  /** One text; an empty recipient stands for a missing one. */
  datatype Message = Message(to: string, body: string)

  const PROLOG := "<?xml version=\"1.0\" encoding=\"UTF-8\"?><Response>"

  function EscapeChar(c: char): string {
    match c
    case '&' => "&amp;"
    case '<' => "&lt;"
    case '>' => "&gt;"
    case '"' => "&quot;"
    case '\'' => "&apos;"
    case _ => [c]
  }

  function XmlEscape(s: string): string {
    if s == "" then "" else EscapeChar(s[0]) + XmlEscape(s[1..])
  }

  function MessageXml(m: Message): string {
    "<Message" + (if m.to == "" then "" else " to=\"" + XmlEscape(m.to) + "\"") + ">"
    + XmlEscape(m.body) + "</Message>"
  }

  function MessagesXml(ms: seq<Message>): string {
    if ms == [] then "" else MessageXml(ms[0]) + MessagesXml(ms[1..])
  }

  function SayXml(say: string): string {
    if say == "" then "" else "<Say>" + XmlEscape(say) + "</Say>"
  }

  /** Ringing the owner: seconds to wait, where to report the outcome, and the number to ring. */
  datatype Dial = Dial(timeout: nat, action: string, number: string)

  function DialXml(dial: Option<Dial>): string {
    match dial
    case None => ""
    case Some(d) =>
      "<Dial timeout=\"" + Money.Decimal(d.timeout) + "\" action=\"" + XmlEscape(d.action)
      + "\" method=\"POST\"><Number>" + XmlEscape(d.number) + "</Number></Dial>"
  }

  /** An empty `say` is left out. */
  function BuildTwiml(dial: Option<Dial>, say: string, messages: seq<Message>, hangup: bool): string {
    PROLOG + DialXml(dial) + SayXml(say)
    + MessagesXml(messages) + (if hangup then "<Hangup/>" else "") + "</Response>"
  }

  // ---------------------------------------------------------------- reader

  /** What a reader makes of one document. */
  datatype Document = Document(dial: Option<Dial>, say: string, messages: seq<Message>, hangup: bool)

  /** The character an ampersand at the front stands for, and how much of the input it takes. */
  function Entity(s: string): Option<(char, nat)> {
    if "&amp;" <= s then Some(('&', 5))
    else if "&lt;" <= s then Some(('<', 4))
    else if "&gt;" <= s then Some(('>', 4))
    else if "&quot;" <= s then Some(('"', 6))
    else if "&apos;" <= s then Some(('\'', 6))
    else None
  }

  /** The five predefined entities; any other use of an ampersand is an error. */
  function Unescape(s: string): Option<string>
    decreases |s|
  {
    if s == "" then Some("")
    else if s[0] != '&' then Prepend(s[0], Unescape(s[1..]))
    else
      match Entity(s)
      case None => None
      case Some((c, n)) => Prepend(c, Unescape(s[n..]))
  }

  function Prepend(c: char, rest: Option<string>): Option<string> {
    match rest
    case None => None
    case Some(text) => Some([c] + text)
  }

  /** Position of the first `c`, or the length when there is none. */
  function Find(s: string, c: char): (n: nat)
    ensures n <= |s|
  {
    if s == "" || s[0] == c then 0 else 1 + Find(s[1..], c)
  }

  /** Text up to `stop`, with entities replaced, and the input from `stop` on. */
  function ReadText(s: string, stop: char): (r: Option<(string, string)>)
    ensures r.Some? ==> |r.value.1| <= |s|
  {
    match Unescape(s[..Find(s, stop)])
    case None => None
    case Some(text) => Some((text, s[Find(s, stop)..]))
  }

  /** The input after `token`, if it starts with it. */
  function Expect(s: string, token: string): (r: Option<string>)
    ensures r.Some? ==> s == token + r.value
  {
    if token <= s then Some(s[|token|..]) else None
  }

  function ReadBody(s: string, to: string): (r: Option<(Message, string)>)
    ensures r.Some? ==> |r.value.1| < |s|
  {
    match ReadText(s, '<')
    case None => None
    case Some((body, tail)) =>
      match Expect(tail, "</Message>")
      case None => None
      case Some(rest) => Some((Message(to, body), rest))
  }

  /** One message element, its start tag already recognised by `<Message`. */
  function ReadMessage(s: string): (r: Option<(Message, string)>)
    ensures r.Some? ==> |r.value.1| < |s|
  {
    match Expect(s, " to=\"")
    case None =>
      (match Expect(s, ">")
       case None => None
       case Some(inner) => ReadBody(inner, ""))
    case Some(attribute) =>
      match ReadText(attribute, '"')
      case None => None
      case Some((to, tail)) =>
        match Expect(tail, "\">")
        case None => None
        case Some(inner) => ReadBody(inner, to)
  }

  /** Message elements as long as they come, and the input after them. */
  function ReadMessages(s: string): Option<(seq<Message>, string)>
    decreases |s|
  {
    match Expect(s, "<Message")
    case None => Some(([], s))
    case Some(element) =>
      match ReadMessage(element)
      case None => None
      case Some((m, tail)) =>
        match ReadMessages(tail)
        case None => None
        case Some((ms, rest)) => Some(([m] + ms, rest))
  }

  function ReadSay(s: string): Option<(string, string)> {
    match Expect(s, "<Say>")
    case None => Some(("", s))
    case Some(inner) =>
      match ReadText(inner, '<')
      case None => None
      case Some((say, tail)) =>
        match Expect(tail, "</Say>")
        case None => None
        case Some(rest) => Some((say, rest))
  }

  predicate IsNumber(s: string) {
    s != "" && forall c <- s :: IsDigit(c)
  }

  function ReadNumber(s: string, timeout: nat, action: string): Option<(Dial, string)> {
    match ReadText(s, '<')
    case None => None
    case Some((number, tail)) =>
      match Expect(tail, "</Number></Dial>")
      case None => None
      case Some(rest) => Some((Dial(timeout, action, number), rest))
  }

  function ReadAction(s: string, timeout: nat): Option<(Dial, string)> {
    match ReadText(s, '"')
    case None => None
    case Some((action, tail)) =>
      match Expect(tail, "\" method=\"POST\"><Number>")
      case None => None
      case Some(inner) => ReadNumber(inner, timeout, action)
  }

  function ReadTimeout(s: string): Option<(Dial, string)> {
    match ReadText(s, '"')
    case None => None
    case Some((timeout, tail)) =>
      if !IsNumber(timeout) then None
      else
        match Expect(tail, "\" action=\"")
        case None => None
        case Some(inner) => ReadAction(inner, Money.ParseDecimal(timeout))
  }

  function ReadDial(s: string): Option<(Option<Dial>, string)> {
    match Expect(s, "<Dial timeout=\"")
    case None => Some((None, s))
    case Some(inner) =>
      match ReadTimeout(inner)
      case None => None
      case Some((dial, rest)) => Some((Some(dial), rest))
  }

  function ReadRest(s: string, dial: Option<Dial>): Option<Document> {
    match ReadSay(s)
    case None => None
    case Some((say, afterSay)) =>
      match ReadMessages(afterSay)
      case None => None
      case Some((messages, afterMessages)) =>
        if afterMessages == "</Response>" then Some(Document(dial, say, messages, false))
        else if afterMessages == "<Hangup/></Response>" then Some(Document(dial, say, messages, true))
        else None
  }

  function ReadTwiml(s: string): Option<Document> {
    match Expect(s, PROLOG)
    case None => None
    case Some(inner) =>
      match ReadDial(inner)
      case None => None
      case Some((dial, afterDial)) => ReadRest(afterDial, dial)
  }

  // ---------------------------------------------------------------- round trip

  lemma EntityByLetter(s: string)
    ensures "&lt;" <= s ==> s[1] == 'l'
    ensures "&gt;" <= s ==> s[1] == 'g'
    ensures "&quot;" <= s ==> s[1] == 'q'
    ensures "&apos;" <= s ==> s[1] == 'a' && s[2] == 'p'
    ensures "&amp;" <= s ==> s[1] == 'a' && s[2] == 'm'
  {
  }

  lemma EscapedEntity(c: char, rest: string)
    requires EscapeChar(c)[0] == '&'
    ensures Entity(EscapeChar(c) + rest) == Some((c, |EscapeChar(c)|))
  {
    var s := EscapeChar(c) + rest;
    assert EscapeChar(c) <= s;
    EntityByLetter(s);
  }

  lemma EscapedHead(c: char, rest: string)
    ensures Unescape(EscapeChar(c) + rest) == Prepend(c, Unescape(rest))
  {
    var s := EscapeChar(c) + rest;
    assert s[|EscapeChar(c)|..] == rest;
    if EscapeChar(c)[0] == '&' {
      EscapedEntity(c, rest);
    }
  }

  lemma {:induction false} EscapedIsClean(s: string, c: char)
    requires c == '<' || c == '>' || c == '"' || c == '\''
    ensures c !in XmlEscape(s)
  {
    if s != "" {
      EscapedIsClean(s[1..], c);
      assert c !in EscapeChar(s[0]);
    }
  }

  /** Escaped text is read back as it was; by EscapedIsClean it can contain neither a tag nor the end of an attribute. */
  lemma {:induction false} EscapeRoundTrip(s: string)
    ensures Unescape(XmlEscape(s)) == Some(s)
  {
    if s != "" {
      EscapeRoundTrip(s[1..]);
      EscapedHead(s[0], XmlEscape(s[1..]));
      assert [s[0]] + s[1..] == s;
    }
  }

  lemma {:induction false} FindFirst(text: string, c: char, rest: string)
    requires c !in text && rest != "" && rest[0] == c
    ensures Find(text + rest, c) == |text|
  {
    if text == "" {
      assert text + rest == rest;
    } else {
      assert (text + rest)[1..] == text[1..] + rest;
      FindFirst(text[1..], c, rest);
    }
  }

  lemma ReadEscaped(text: string, stop: char, rest: string)
    requires stop == '<' || stop == '"'
    requires rest != "" && rest[0] == stop
    ensures ReadText(XmlEscape(text) + rest, stop) == Some((text, rest))
  {
    var s := XmlEscape(text) + rest;
    EscapeRoundTrip(text);
    EscapedIsClean(text, stop);
    FindFirst(XmlEscape(text), stop, rest);
    assert s[..|XmlEscape(text)|] == XmlEscape(text) && s[|XmlEscape(text)|..] == rest;
  }

  lemma ExpectPrefix(token: string, rest: string)
    ensures Expect(token + rest, token) == Some(rest)
  {
    assert (token + rest)[|token|..] == rest;
  }

  lemma BodyRoundTrip(to: string, body: string, rest: string)
    ensures ReadBody(XmlEscape(body) + "</Message>" + rest, to) == Some((Message(to, body), rest))
  {
    assert XmlEscape(body) + "</Message>" + rest == XmlEscape(body) + ("</Message>" + rest);
    ReadEscaped(body, '<', "</Message>" + rest);
    ExpectPrefix("</Message>", rest);
  }

  lemma Assoc(a: string, b: string, c: string)
    ensures a + b + c == a + (b + c)
  {
  }

  lemma PlainMessageRoundTrip(body: string, rest: string)
    ensures ReadMessage(">" + (XmlEscape(body) + "</Message>" + rest)) == Some((Message("", body), rest))
  {
    var inner := XmlEscape(body) + "</Message>" + rest;
    BodyRoundTrip("", body, rest);
    ExpectPrefix(">", inner);
    assert (">" + inner)[0] != " to=\""[0];
  }

  lemma AddressedMessageRoundTrip(to: string, body: string, rest: string)
    ensures ReadMessage(" to=\"" + (XmlEscape(to) + ("\">" + (XmlEscape(body) + "</Message>" + rest))))
         == Some((Message(to, body), rest))
  {
    var inner := XmlEscape(body) + "</Message>" + rest;
    var close := "\">" + inner;
    BodyRoundTrip(to, body, rest);
    ExpectPrefix(" to=\"", XmlEscape(to) + close);
    ReadEscaped(to, '"', close);
    ExpectPrefix("\">", inner);
  }

  lemma MessageRoundTrip(m: Message, rest: string)
    ensures var s := MessageXml(m) + rest;
            && Expect(s, "<Message").Some?
            && ReadMessage(Expect(s, "<Message").value) == Some((m, rest))
  {
    var inner := XmlEscape(m.body) + "</Message>" + rest;
    if m.to == "" {
      assert MessageXml(m) + rest == "<Message" + (">" + inner);
      ExpectPrefix("<Message", ">" + inner);
      PlainMessageRoundTrip(m.body, rest);
    } else {
      var element := " to=\"" + (XmlEscape(m.to) + ("\">" + inner));
      assert MessageXml(m) + rest == "<Message" + element;
      ExpectPrefix("<Message", element);
      AddressedMessageRoundTrip(m.to, m.body, rest);
    }
  }

  lemma FirstMessage(m: Message, tail: string, ms: seq<Message>, rest: string)
    requires ReadMessages(tail) == Some((ms, rest))
    ensures ReadMessages(MessageXml(m) + tail) == Some(([m] + ms, rest))
  {
    MessageRoundTrip(m, tail);
  }

  lemma {:induction false} MessagesRoundTrip(ms: seq<Message>, rest: string)
    requires Expect(rest, "<Message").None?
    ensures ReadMessages(MessagesXml(ms) + rest) == Some((ms, rest))
  {
    if ms == [] {
      assert MessagesXml(ms) + rest == rest;
    } else {
      MessagesRoundTrip(ms[1..], rest);
      FirstMessage(ms[0], MessagesXml(ms[1..]) + rest, ms[1..], rest);
      Assoc(MessageXml(ms[0]), MessagesXml(ms[1..]), rest);
      assert [ms[0]] + ms[1..] == ms;
    }
  }

  lemma SayRoundTrip(say: string, rest: string)
    requires Expect(rest, "<Say>").None?
    ensures ReadSay(SayXml(say) + rest) == Some((say, rest))
  {
    if say == "" {
      assert "" + rest == rest;
    } else {
      var inner := XmlEscape(say) + ("</Say>" + rest);
      assert "<Say>" + XmlEscape(say) + "</Say>" + rest == "<Say>" + inner;
      ExpectPrefix("<Say>", inner);
      ReadEscaped(say, '<', "</Say>" + rest);
      ExpectPrefix("</Say>", rest);
    }
  }

  // ---------------------------------------------------------------- the dial element

  lemma {:induction false} DigitsUnescape(s: string)
    requires forall c <- s :: IsDigit(c)
    ensures XmlEscape(s) == s
  {
    if s != "" {
      assert IsDigit(s[0]);
      DigitsUnescape(s[1..]);
    }
  }

  lemma NumberRoundTrip(d: Dial, rest: string)
    ensures ReadNumber(XmlEscape(d.number) + ("</Number></Dial>" + rest), d.timeout, d.action) == Some((d, rest))
  {
    ReadEscaped(d.number, '<', "</Number></Dial>" + rest);
    ExpectPrefix("</Number></Dial>", rest);
  }

  lemma ActionRoundTrip(d: Dial, rest: string)
    ensures var number := XmlEscape(d.number) + ("</Number></Dial>" + rest);
            ReadAction(XmlEscape(d.action) + ("\" method=\"POST\"><Number>" + number), d.timeout) == Some((d, rest))
  {
    var number := XmlEscape(d.number) + ("</Number></Dial>" + rest);
    ReadEscaped(d.action, '"', "\" method=\"POST\"><Number>" + number);
    ExpectPrefix("\" method=\"POST\"><Number>", number);
    NumberRoundTrip(d, rest);
  }

  lemma TimeoutRoundTrip(d: Dial, rest: string)
    ensures var number := XmlEscape(d.number) + ("</Number></Dial>" + rest);
            var action := XmlEscape(d.action) + ("\" method=\"POST\"><Number>" + number);
            ReadTimeout(Money.Decimal(d.timeout) + ("\" action=\"" + action)) == Some((d, rest))
  {
    var number := XmlEscape(d.number) + ("</Number></Dial>" + rest);
    var action := XmlEscape(d.action) + ("\" method=\"POST\"><Number>" + number);
    var digits := Money.Decimal(d.timeout);
    DigitsUnescape(digits);
    ReadEscaped(digits, '"', "\" action=\"" + action);
    Money.DecimalRoundTrip(d.timeout);
    ExpectPrefix("\" action=\"", action);
    ActionRoundTrip(d, rest);
  }

  lemma DialPieces(d: Dial, rest: string)
    ensures var number := XmlEscape(d.number) + ("</Number></Dial>" + rest);
            var action := XmlEscape(d.action) + ("\" method=\"POST\"><Number>" + number);
            DialXml(Some(d)) + rest == "<Dial timeout=\"" + (Money.Decimal(d.timeout) + ("\" action=\"" + action))
  {
    SevenParts("<Dial timeout=\"", Money.Decimal(d.timeout), "\" action=\"", XmlEscape(d.action),
               "\" method=\"POST\"><Number>", XmlEscape(d.number), "</Number></Dial>", rest);
  }

  lemma SevenParts(a: string, b: string, c: string, d: string, e: string, f: string, g: string, rest: string)
    ensures a + b + c + d + e + f + g + rest == a + (b + (c + (d + (e + (f + (g + rest))))))
  {
  }

  lemma DialRoundTrip(dial: Option<Dial>, rest: string)
    requires Expect(rest, "<Dial timeout=\"").None?
    ensures ReadDial(DialXml(dial) + rest) == Some((dial, rest))
  {
    match dial {
      case None => assert "" + rest == rest;
      case Some(d) =>
        var number := XmlEscape(d.number) + ("</Number></Dial>" + rest);
        var action := XmlEscape(d.action) + ("\" method=\"POST\"><Number>" + number);
        DialPieces(d, rest);
        ExpectPrefix("<Dial timeout=\"", Money.Decimal(d.timeout) + ("\" action=\"" + action));
        TimeoutRoundTrip(d, rest);
    }
  }

  // ---------------------------------------------------------------- the whole document

  function Ending(hangup: bool): string {
    (if hangup then "<Hangup/>" else "") + "</Response>"
  }

  lemma EndingShape(hangup: bool)
    ensures var end := Ending(hangup);
            && |end| >= 2 && end[1] != 'S' && end[1] != 'D' && Expect(end, "<Message").None?
            && (hangup ==> end == "<Hangup/></Response>") && (!hangup ==> end == "</Response>")
            && "<Hangup/></Response>" != "</Response>"
  {
    assert "<Message"[1] == 'M';
    assert "<Hangup/></Response>"[1] == 'H' && "</Response>"[1] == '/';
  }

  /** The second character tells the elements apart. */
  lemma MessagesShape(messages: seq<Message>, end: string)
    requires |end| >= 2 && end[1] != 'S' && end[1] != 'D'
    ensures var body := MessagesXml(messages) + end;
            |body| >= 2 && body[1] != 'S' && body[1] != 'D' && Expect(body, "<Say>").None?
  {
    var body := MessagesXml(messages) + end;
    if messages != [] {
      assert body[1] == MessageXml(messages[0])[1] == 'M';
    } else {
      assert body == end;
    }
    assert "<Say>"[1] == 'S';
  }

  lemma SayShape(say: string, body: string)
    requires |body| >= 2 && body[1] != 'D'
    ensures Expect(SayXml(say) + body, "<Dial timeout=\"").None?
  {
    var s := SayXml(say) + body;
    if say != "" {
      assert s[1] == SayXml(say)[1] == 'S';
    } else {
      assert s == body;
    }
    assert "<Dial timeout=\""[1] == 'D';
  }

  lemma TwimlParts(dial: Option<Dial>, say: string, messages: seq<Message>, hangup: bool)
    ensures BuildTwiml(dial, say, messages, hangup)
         == PROLOG + (DialXml(dial) + (SayXml(say) + (MessagesXml(messages) + Ending(hangup))))
  {
    SixParts(PROLOG, DialXml(dial), SayXml(say), MessagesXml(messages), if hangup then "<Hangup/>" else "", "</Response>");
  }

  lemma SixParts(a: string, b: string, c: string, d: string, e: string, f: string)
    ensures a + b + c + d + e + f == a + (b + (c + (d + (e + f))))
  {
  }

  lemma RestRoundTrip(dial: Option<Dial>, say: string, ms: seq<Message>, hangup: bool)
    ensures ReadRest(SayXml(say) + (MessagesXml(ms) + Ending(hangup)), dial) == Some(Document(dial, say, ms, hangup))
  {
    var end := Ending(hangup);
    var body := MessagesXml(ms) + end;
    EndingShape(hangup);
    MessagesShape(ms, end);
    SayRoundTrip(say, body);
    MessagesRoundTrip(ms, end);
  }

  /** A reader recovers the dial element, the spoken text, exactly the list of recipients and bodies, and the hang-up,
      whatever characters they contain. */
  lemma TwimlRoundTrip(dial: Option<Dial>, say: string, messages: seq<Message>, hangup: bool)
    ensures ReadTwiml(BuildTwiml(dial, say, messages, hangup)) == Some(Document(dial, say, messages, hangup))
  {
    var body := MessagesXml(messages) + Ending(hangup);
    EndingShape(hangup);
    MessagesShape(messages, Ending(hangup));
    SayShape(say, body);
    TwimlParts(dial, say, messages, hangup);
    ExpectPrefix(PROLOG, DialXml(dial) + (SayXml(say) + body));
    DialRoundTrip(dial, SayXml(say) + body);
    RestRoundTrip(dial, say, messages, hangup);
  }

  // ---------------------------------------------------------------- what a conforming processor makes of it

  /** What follows the first character or line end. */
  function AfterFirst(s: string): (rest: string)
    requires s != ""
    ensures |rest| < |s|
  {
    if s[0] == '\r' && |s| > 1 && s[1] == '\n' then s[2..] else s[1..]
  }

  /** Section 2.11 of XML 1.0: before anything else, every line end becomes one line feed. */
  function LineEnds(s: string): string
    decreases |s|
  {
    if s == "" then "" else [if s[0] == '\r' then '\n' else s[0]] + LineEnds(AfterFirst(s))
  }

  /** Section 3.3.3 of XML 1.0: in an attribute, white space is read as spaces. */
  function AttributeValue(s: string): string {
    if s == "" then ""
    else [if s[0] == '\n' || s[0] == '\r' || s[0] == '\t' then ' ' else s[0]] + AttributeValue(s[1..])
  }

  function NormalMessage(m: Message): Message {
    Message(AttributeValue(LineEnds(m.to)), LineEnds(m.body))
  }

  function NormalMessages(ms: seq<Message>): seq<Message> {
    if ms == [] then [] else [NormalMessage(ms[0])] + NormalMessages(ms[1..])
  }

  function NormalDial(dial: Option<Dial>): Option<Dial> {
    match dial
    case None => None
    case Some(d) => Some(Dial(d.timeout, AttributeValue(LineEnds(d.action)), LineEnds(d.number)))
  }

  function SpacedMessages(ms: seq<Message>): seq<Message> {
    if ms == [] then [] else [Message(AttributeValue(ms[0].to), ms[0].body)] + SpacedMessages(ms[1..])
  }

  function SpacedDial(dial: Option<Dial>): Option<Dial> {
    match dial
    case None => None
    case Some(d) => Some(d.(action := AttributeValue(d.action)))
  }

  /** A reader that follows the standard in both respects; the entities it replaces stand for no white space. */
  function ReadXml(s: string): Option<Document> {
    match ReadTwiml(LineEnds(s))
    case None => None
    case Some(doc) => Some(Document(SpacedDial(doc.dial), doc.say, SpacedMessages(doc.messages), doc.hangup))
  }

  lemma FirstOfJoin(a: string, b: string)
    requires a != "" && (b != "" && b[0] == '\n' ==> a[0] != '\r')
    ensures (a + b)[0] == a[0] && AfterFirst(a + b) == AfterFirst(a) + b
  {
  }

  /** One character of a longer text. */
  lemma LineEndsStep(a: string, b: string, rest: string)
    requires a != "" && (b != "" && b[0] == '\n' ==> a[0] != '\r')
    requires LineEnds(AfterFirst(a) + b) == rest + LineEnds(b)
    ensures LineEnds(a + b) == [if a[0] == '\r' then '\n' else a[0]] + rest + LineEnds(b)
  {
    FirstOfJoin(a, b);
    Assoc([if a[0] == '\r' then '\n' else a[0]], rest, LineEnds(b));
  }

  lemma {:induction false} LineEndsJoin(a: string, b: string)
    requires b != "" ==> b[0] != '\n'
    ensures LineEnds(a + b) == LineEnds(a) + LineEnds(b)
    decreases |a|
  {
    if a == "" {
      assert a + b == b;
    } else {
      LineEndsJoin(AfterFirst(a), b);
      LineEndsStep(a, b, LineEnds(AfterFirst(a)));
    }
  }

  lemma {:induction false} NoReturnsThen(a: string, b: string)
    requires '\r' !in a
    ensures LineEnds(a + b) == a + LineEnds(b)
  {
    if a == "" {
      assert a + b == b;
    } else {
      NoReturnsThen(a[1..], b);
      LineEndsStep(a, b, a[1..]);
      assert a == [a[0]] + a[1..];
    }
  }

  lemma NoReturns(s: string)
    requires '\r' !in s
    ensures LineEnds(s) == s
  {
    NoReturnsThen(s, "");
    assert s + "" == s;
  }

  lemma {:induction false} NoReturnsLeft(s: string)
    ensures '\r' !in LineEnds(s)
    decreases |s|
  {
    if s != "" {
      NoReturnsLeft(AfterFirst(s));
    }
  }

  lemma EscapedFirst(c: char)
    ensures EscapeChar(c) != "" && (c != '\n' ==> EscapeChar(c)[0] != '\n') && (c != '\r' ==> '\r' !in EscapeChar(c))
  {
  }

  /** Escaping neither makes nor hides line ends. */
  lemma {:induction false} EscapeLineEnds(s: string)
    ensures LineEnds(XmlEscape(s)) == XmlEscape(LineEnds(s))
    decreases |s|
  {
    if s != "" {
      EscapeLineEnds(AfterFirst(s));
      if s[0] == '\r' {
        ReturnEscapes(s);
      } else {
        EscapedFirst(s[0]);
        NoReturnsThen(EscapeChar(s[0]), XmlEscape(s[1..]));
      }
      var first := if s[0] == '\r' then '\n' else s[0];
      assert XmlEscape([first] + LineEnds(AfterFirst(s))) == EscapeChar(first) + XmlEscape(LineEnds(AfterFirst(s)));
    }
  }

  lemma ReturnEscapes(s: string)
    requires s != "" && s[0] == '\r'
    ensures LineEnds(XmlEscape(s)) == "\n" + LineEnds(XmlEscape(AfterFirst(s)))
  {
    var escaped := XmlEscape(s);
    assert escaped == "\r" + XmlEscape(s[1..]) && escaped[1..] == XmlEscape(s[1..]);
    if |s| > 1 {
      EscapedFirst(s[1]);
      assert XmlEscape(s[1..]) == EscapeChar(s[1]) + XmlEscape(s[2..]) by {
        assert s[1..][1..] == s[2..];
      }
      if s[1] == '\n' {
        assert escaped[2..] == XmlEscape(s[2..]);
      }
    }
  }

  /** A text in its place: normalising goes through it and through the markup behind it. */
  lemma TextThen(text: string, markup: string, rest: string)
    requires markup != "" && markup[0] != '\n' && '\r' !in markup
    ensures LineEnds(XmlEscape(text) + (markup + rest)) == XmlEscape(LineEnds(text)) + (markup + LineEnds(rest))
  {
    LineEndsJoin(XmlEscape(text), markup + rest);
    EscapeLineEnds(text);
    NoReturnsThen(markup, rest);
  }

  function OnLines(m: Message): Message {
    Message(LineEnds(m.to), LineEnds(m.body))
  }

  function AllOnLines(ms: seq<Message>): seq<Message> {
    if ms == [] then [] else [OnLines(ms[0])] + AllOnLines(ms[1..])
  }

  function DialOnLines(dial: Option<Dial>): Option<Dial> {
    match dial
    case None => None
    case Some(d) => Some(Dial(d.timeout, LineEnds(d.action), LineEnds(d.number)))
  }

  lemma PlainPieces(m: Message, rest: string)
    requires m.to == ""
    ensures MessageXml(m) + rest == "<Message>" + (XmlEscape(m.body) + ("</Message>" + rest))
  {
    assert "<Message" + "" + ">" == "<Message>";
    ThreeParts("<Message>", XmlEscape(m.body), "</Message>", rest);
  }

  lemma ThreeParts(a: string, b: string, c: string, rest: string)
    ensures a + b + c + rest == a + (b + (c + rest))
  {
  }

  lemma AddressedPieces(m: Message, rest: string)
    requires m.to != ""
    ensures MessageXml(m) + rest
         == "<Message to=\"" + (XmlEscape(m.to) + ("\">" + (XmlEscape(m.body) + ("</Message>" + rest))))
  {
    assert "<Message" + " to=\"" == "<Message to=\"" && "\"" + ">" == "\">";
    AttributeParts("<Message", " to=\"", XmlEscape(m.to), "\"", ">", XmlEscape(m.body), "</Message>", rest);
  }

  lemma AttributeParts(a: string, b: string, c: string, d: string, e: string, f: string, g: string, rest: string)
    ensures a + (b + c + d) + e + f + g + rest == (a + b) + (c + ((d + e) + (f + (g + rest))))
  {
  }

  lemma MessageThen(m: Message, rest: string)
    ensures LineEnds(MessageXml(m) + rest) == MessageXml(OnLines(m)) + LineEnds(rest)
  {
    if m.to == "" {
      PlainPieces(m, rest);
      PlainPieces(OnLines(m), LineEnds(rest));
      NoReturnsThen("<Message>", XmlEscape(m.body) + ("</Message>" + rest));
      TextThen(m.body, "</Message>", rest);
    } else {
      assert LineEnds(m.to) != "";
      AddressedPieces(m, rest);
      AddressedPieces(OnLines(m), LineEnds(rest));
      TwoTextsThen("<Message to=\"", m.to, "\">", m.body, "</Message>", rest);
    }
  }

  lemma {:induction false} MessagesThen(ms: seq<Message>, rest: string)
    ensures LineEnds(MessagesXml(ms) + rest) == MessagesXml(AllOnLines(ms)) + LineEnds(rest)
  {
    if ms == [] {
      assert "" + rest == rest;
    } else {
      MessagesThen(ms[1..], rest);
      Assoc(MessageXml(ms[0]), MessagesXml(ms[1..]), rest);
      MessageThen(ms[0], MessagesXml(ms[1..]) + rest);
      Assoc(MessageXml(OnLines(ms[0])), MessagesXml(AllOnLines(ms[1..])), LineEnds(rest));
      assert AllOnLines(ms)[0] == OnLines(ms[0]) && AllOnLines(ms)[1..] == AllOnLines(ms[1..]);
    }
  }

  lemma SayThen(say: string, rest: string)
    ensures LineEnds(SayXml(say) + rest) == SayXml(LineEnds(say)) + LineEnds(rest)
  {
    if say == "" {
      assert "" + rest == rest && "" + LineEnds(rest) == LineEnds(rest);
    } else {
      ThreeParts("<Say>", XmlEscape(say), "</Say>", rest);
      ThreeParts("<Say>", XmlEscape(LineEnds(say)), "</Say>", LineEnds(rest));
      NoReturnsThen("<Say>", XmlEscape(say) + ("</Say>" + rest));
      TextThen(say, "</Say>", rest);
    }
  }

  lemma NoReturnInDecimal(n: nat)
    ensures '\r' !in Money.Decimal(n)
  {
    assert forall c <- Money.Decimal(n) :: IsDigit(c);
  }

  /** Markup, then a text, then markup, then another text and the rest. */
  lemma TwoTextsThen(open: string, first: string, mid: string, second: string, close: string, rest: string)
    requires '\r' !in open && '\r' !in mid && '\r' !in close
    requires mid != "" && mid[0] != '\n' && close != "" && close[0] != '\n'
    ensures LineEnds(open + (XmlEscape(first) + (mid + (XmlEscape(second) + (close + rest)))))
         == open + (XmlEscape(LineEnds(first)) + (mid + (XmlEscape(LineEnds(second)) + (close + LineEnds(rest)))))
  {
    NoReturnsThen(open, XmlEscape(first) + (mid + (XmlEscape(second) + (close + rest))));
    TextThen(first, mid, XmlEscape(second) + (close + rest));
    TextThen(second, close, rest);
  }

  lemma NoReturnInDial(n: nat)
    ensures '\r' !in "<Dial timeout=\"" + Money.Decimal(n) + "\" action=\""
    ensures '\r' !in "\" method=\"POST\"><Number>" && '\r' !in "</Number></Dial>"
  {
    NoReturnInDecimal(n);
  }

  lemma DialThen(dial: Option<Dial>, rest: string)
    ensures LineEnds(DialXml(dial) + rest) == DialXml(DialOnLines(dial)) + LineEnds(rest)
  {
    match dial {
      case None => assert "" + rest == rest && "" + LineEnds(rest) == LineEnds(rest);
      case Some(d) =>
        var open := "<Dial timeout=\"" + Money.Decimal(d.timeout) + "\" action=\"";
        NoReturnInDial(d.timeout);
        TwoTextsThen(open, d.action, "\" method=\"POST\"><Number>", d.number, "</Number></Dial>", rest);
        DialAsTexts(open, XmlEscape(d.action), XmlEscape(d.number), rest);
        DialAsTexts(open, XmlEscape(LineEnds(d.action)), XmlEscape(LineEnds(d.number)), LineEnds(rest));
    }
  }

  lemma DialAsTexts(open: string, action: string, number: string, rest: string)
    ensures open + action + "\" method=\"POST\"><Number>" + number + "</Number></Dial>" + rest
         == open + (action + ("\" method=\"POST\"><Number>" + (number + ("</Number></Dial>" + rest))))
  {
    FiveParts(open, action, "\" method=\"POST\"><Number>", number, "</Number></Dial>", rest);
  }

  lemma FiveParts(a: string, b: string, c: string, d: string, e: string, rest: string)
    ensures a + b + c + d + e + rest == a + (b + (c + (d + (e + rest))))
  {
  }

  lemma NoReturnInProlog()
    ensures '\r' !in PROLOG
  {
    var first, second := "<?xml version=\"1.0\" encoding", "=\"UTF-8\"?><Response>";
    assert '\r' !in first && '\r' !in second;
    assert PROLOG == first + second;
  }

  lemma NoReturnInEnding(hangup: bool)
    ensures '\r' !in Ending(hangup)
  {
    assert '\r' !in "<Hangup/>" && '\r' !in "</Response>";
  }

  /** Normalising the line ends of a document normalises those of its parts. */
  lemma TwimlLineEnds(dial: Option<Dial>, say: string, messages: seq<Message>, hangup: bool)
    ensures LineEnds(BuildTwiml(dial, say, messages, hangup))
         == BuildTwiml(DialOnLines(dial), LineEnds(say), AllOnLines(messages), hangup)
  {
    var body := MessagesXml(messages) + Ending(hangup);
    NoReturnInProlog();
    NoReturnInEnding(hangup);
    TwimlParts(dial, say, messages, hangup);
    TwimlParts(DialOnLines(dial), LineEnds(say), AllOnLines(messages), hangup);
    NoReturnsThen(PROLOG, DialXml(dial) + (SayXml(say) + body));
    DialThen(dial, SayXml(say) + body);
    SayThen(say, body);
    MessagesThen(messages, Ending(hangup));
    NoReturns(Ending(hangup));
  }

  lemma {:induction false} SpacedOnLines(ms: seq<Message>)
    ensures SpacedMessages(AllOnLines(ms)) == NormalMessages(ms)
  {
    if ms != [] {
      SpacedOnLines(ms[1..]);
      assert AllOnLines(ms)[0] == OnLines(ms[0]) && AllOnLines(ms)[1..] == AllOnLines(ms[1..]);
    }
  }

  /** A conforming processor recovers every part with its line ends, and in attributes its white space, normalised. */
  lemma ConformingReading(dial: Option<Dial>, say: string, messages: seq<Message>, hangup: bool)
    ensures ReadXml(BuildTwiml(dial, say, messages, hangup))
         == Some(Document(NormalDial(dial), LineEnds(say), NormalMessages(messages), hangup))
  {
    TwimlLineEnds(dial, say, messages, hangup);
    TwimlRoundTrip(DialOnLines(dial), LineEnds(say), AllOnLines(messages), hangup);
    SpacedOnLines(messages);
  }

  predicate PlainText(s: string) {
    '\r' !in s
  }

  predicate PlainAttribute(s: string) {
    '\r' !in s && '\n' !in s && '\t' !in s
  }

  predicate PlainMessage(m: Message) {
    PlainAttribute(m.to) && PlainText(m.body)
  }

  predicate PlainDial(dial: Option<Dial>) {
    dial.Some? ==> PlainAttribute(dial.value.action) && PlainText(dial.value.number)
  }

  lemma TextStays(s: string)
    ensures LineEnds(s) == s <==> PlainText(s)
  {
    NoReturnsLeft(s);
    if PlainText(s) {
      NoReturns(s);
    }
  }

  lemma {:induction false} SpacesOnly(s: string)
    ensures PlainAttribute(AttributeValue(s))
    ensures PlainAttribute(s) ==> AttributeValue(s) == s
  {
    if s != "" {
      SpacesOnly(s[1..]);
    }
  }

  lemma AttributeStays(s: string)
    ensures AttributeValue(LineEnds(s)) == s <==> PlainAttribute(s)
  {
    SpacesOnly(LineEnds(s));
    if PlainAttribute(s) {
      NoReturns(s);
    }
  }

  lemma MessageStays(m: Message)
    ensures NormalMessage(m) == m <==> PlainMessage(m)
  {
    AttributeStays(m.to);
    TextStays(m.body);
  }

  lemma {:induction false} MessagesStay(ms: seq<Message>)
    ensures NormalMessages(ms) == ms <==> forall m <- ms :: PlainMessage(m)
  {
    if ms != [] {
      var normal, rest := NormalMessages(ms), ms[1..];
      MessagesStay(rest);
      MessageStays(ms[0]);
      assert ms == [ms[0]] + rest;
      assert normal == ms <==> NormalMessage(ms[0]) == ms[0] && NormalMessages(rest) == rest by {
        assert normal[0] == NormalMessage(ms[0]) && normal[1..] == NormalMessages(rest);
      }
    }
  }

  lemma DialStays(dial: Option<Dial>)
    ensures NormalDial(dial) == dial <==> PlainDial(dial)
  {
    if dial.Some? {
      AttributeStays(dial.value.action);
      TextStays(dial.value.number);
    }
  }

  /** So what was put in comes out unchanged exactly when no text holds a carriage return and no attribute a carriage
      return, a line feed or a tab. */
  lemma ConformingRoundTrip(dial: Option<Dial>, say: string, messages: seq<Message>, hangup: bool)
    ensures ReadXml(BuildTwiml(dial, say, messages, hangup)) == Some(Document(dial, say, messages, hangup))
       <==> PlainDial(dial) && PlainText(say) && forall m <- messages :: PlainMessage(m)
  {
    ConformingReading(dial, say, messages, hangup);
    DialStays(dial);
    TextStays(say);
    MessagesStay(messages);
  }
}
