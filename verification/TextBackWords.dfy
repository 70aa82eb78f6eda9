/** The words that stop, explain and restart texting, read off the letters of a message, and what they do over runs. */
module TextBackWords {
  import opened Common
  import opened TextBack
  import opened TextBackLeads
  import opened TextBackOptOut
  import opened TextBackReplies

  // ---------------------------------------------------------------- the letters of a message

  /** The text spells the word, written in capitals, in any mixture of capital and small letters. */
  predicate Spells(text: string, word: string) {
    |text| == |word| && forall i :: 0 <= i < |word| ==> text[i] == word[i] || text[i] as int == word[i] as int + 32
  }

  predicate Blank(s: string) {
    forall c <- s :: c == ' ' || c == '\t' || c == '\n' || c == '\r'
  }

  predicate Marks(s: string) {
    forall c <- s :: c == '.' || c == '!' || c == ','
  }

  /** How every message is cut: white space, the core, white space, a run of closing marks, white space. The core has no
      white space at either end, and takes in no mark that the run could; without a run there is no gap before it. */
  datatype Cut = Cut(lead: string, core: string, gap: string, marks: string, tail: string)

  predicate IsCut(body: string, c: Cut) {
    && body == c.lead + c.core + c.gap + c.marks + c.tail
    && Blank(c.lead) && Blank(c.gap) && Marks(c.marks) && Blank(c.tail)
    && (c.core == "" ==> c.gap == "")
    && (c.core != "" ==> !Blank([c.core[0]]) && !Blank([c.core[|c.core| - 1]]) && (c.gap == "" ==> !Marks([c.core[|c.core| - 1]])))
    && (c.marks == "" ==> c.gap == "")
  }

  predicate IsStopWord(core: string) {
    Spells(core, "STOP") || Spells(core, "STOPALL") || Spells(core, "UNSUBSCRIBE")
    || Spells(core, "CANCEL") || Spells(core, "END") || Spells(core, "QUIT")
  }

  predicate IsHelpWord(core: string) {
    Spells(core, "HELP") || Spells(core, "INFO")
  }

  predicate IsStartWord(core: string) {
    Spells(core, "START") || Spells(core, "UNSTOP")
  }

  // ---------------------------------------------------------------- reading a message

  lemma {:induction false} TrimLeftLead(lead: string, s: string)
    requires Blank(lead) && (s != "" ==> !IsSpace(s[0]))
    ensures TrimLeft(lead + s) == s
  {
    if lead == "" {
      assert lead + s == s;
    } else {
      assert (lead + s)[1..] == lead[1..] + s && lead[0] in lead;
      assert forall c <- lead[1..] :: c in lead;
      TrimLeftLead(lead[1..], s);
    }
  }

  lemma {:induction false} TrimRightTail(s: string, tail: string)
    requires Blank(tail) && (s != "" ==> !IsSpace(s[|s| - 1]))
    ensures TrimRight(s + tail) == s
  {
    if tail == "" {
      assert s + tail == s;
    } else {
      var n := |tail| - 1;
      assert (s + tail)[..|s + tail| - 1] == s + tail[..n] && tail[n] in tail;
      assert forall c <- tail[..n] :: c in tail;
      TrimRightTail(s, tail[..n]);
    }
  }

  /** Trimming takes off exactly the white space around a text that has none at its ends. */
  lemma TrimAround(lead: string, s: string, tail: string)
    requires Blank(lead) && Blank(tail) && (s != "" ==> !IsSpace(s[0]) && !IsSpace(s[|s| - 1]))
    ensures Trim(lead + s + tail) == s
  {
    if s == "" {
      BlankTrims(lead + s + tail);
    } else {
      assert lead + s + tail == lead + (s + tail);
      TrimLeftLead(lead, s + tail);
      TrimRightTail(s, tail);
    }
  }

  lemma BlankTrims(s: string)
    requires Blank(s)
    ensures Trim(s) == ""
  {
    assert s + "" == s;
    TrimLeftLead(s, "");
  }

  lemma {:induction false} StripMarks(s: string, marks: string)
    requires Marks(marks) && (s != "" ==> !EndsSentence(s[|s| - 1]))
    ensures StripSentenceEnd(s + marks) == s
  {
    if marks == "" {
      assert s + marks == s;
    } else {
      var n := |marks| - 1;
      assert (s + marks)[..|s + marks| - 1] == s + marks[..n] && marks[n] in marks;
      assert forall c <- marks[..n] :: c in marks;
      StripMarks(s, marks[..n]);
    }
  }

  lemma UpperJoin(a: string, b: string)
    ensures Upper(a + b) == Upper(a) + Upper(b)
  {
  }

  lemma UpperKeeps(s: string)
    ensures |Upper(s)| == |s| && (Blank(s) ==> Upper(s) == s) && (Marks(s) ==> Upper(s) == s)
    ensures forall i :: 0 <= i < |s| ==> (IsSpace(Upper(s)[i]) <==> IsSpace(s[i])) && (EndsSentence(Upper(s)[i]) <==> EndsSentence(s[i]))
  {
    forall i | 0 <= i < |s|
      ensures IsSpace(Upper(s)[i]) <==> IsSpace(s[i])
      ensures EndsSentence(Upper(s)[i]) <==> EndsSentence(s[i])
      ensures Blank(s) || Marks(s) ==> Upper(s)[i] == s[i]
    {
      assert s[i] in s;
    }
  }

  /** In capitals a cut message keeps its white space and its marks. */
  lemma UpperOfCut(c: Cut)
    requires Blank(c.gap) && Marks(c.marks)
    ensures Upper(c.core + c.gap + c.marks) == Upper(c.core) + c.gap + c.marks
  {
    UpperJoin(c.core + c.gap, c.marks);
    UpperJoin(c.core, c.gap);
    UpperKeeps(c.gap);
    UpperKeeps(c.marks);
  }

  /** A message that is cut so comes down to its core in capitals. */
  lemma CoreIsRead(body: string, c: Cut)
    requires IsCut(body, c)
    ensures Trim(StripSentenceEnd(Upper(Trim(body)))) == Upper(c.core)
  {
    var inner := c.core + c.gap + c.marks;
    assert body == c.lead + inner + c.tail;
    InnerEnds(c);
    TrimAround(c.lead, inner, c.tail);
    UpperOfCut(c);
    FrontIsRead(c);
  }

  lemma FrontIsRead(c: Cut)
    requires IsCut(c.lead + c.core + c.gap + c.marks + c.tail, c)
    ensures Trim(StripSentenceEnd(Upper(c.core) + c.gap + c.marks)) == Upper(c.core)
  {
    var front := Upper(c.core) + c.gap;
    FrontEnds(c, front);
    StripMarks(front, c.marks);
    assert "" + Upper(c.core) + c.gap == front;
    UpperKeeps(c.core);
    TrimAround("", Upper(c.core), c.gap);
  }

  lemma InnerEnds(c: Cut)
    requires IsCut(c.lead + c.core + c.gap + c.marks + c.tail, c)
    ensures var inner := c.core + c.gap + c.marks;
            inner != "" ==> !IsSpace(inner[0]) && !IsSpace(inner[|inner| - 1])
  {
    var inner := c.core + c.gap + c.marks;
    if inner != "" {
      if c.marks != "" {
        assert inner[|inner| - 1] == c.marks[|c.marks| - 1] && c.marks[|c.marks| - 1] in c.marks;
      }
      if c.core == "" {
        assert inner == c.marks && c.marks[0] in c.marks;
      }
    }
  }

  lemma FrontEnds(c: Cut, front: string)
    requires IsCut(c.lead + c.core + c.gap + c.marks + c.tail, c) && front == Upper(c.core) + c.gap
    ensures front != "" ==> !EndsSentence(front[|front| - 1])
    ensures c.core != "" ==> !IsSpace(Upper(c.core)[0]) && !IsSpace(Upper(c.core)[|c.core| - 1])
  {
    UpperKeeps(c.core);
    if c.gap != "" {
      assert front[|front| - 1] == c.gap[|c.gap| - 1] && c.gap[|c.gap| - 1] in c.gap;
    }
  }

  /** Spelling a word in any case is reading it in capitals. */
  lemma SpellsUpper(text: string, word: string)
    requires forall c <- word :: 'A' <= c <= 'Z'
    ensures Spells(text, word) <==> Upper(text) == word
  {
    if |text| == |word| {
      forall i | 0 <= i < |word|
        ensures (text[i] == word[i] || text[i] as int == word[i] as int + 32) <==> Upper(text)[i] == word[i]
      {
        assert word[i] in word;
      }
    }
  }

  lemma CoreClasses(core: string)
    ensures IsStopWord(core) <==> Upper(core) in {"STOP", "STOPALL", "UNSUBSCRIBE", "CANCEL", "END", "QUIT"}
    ensures IsHelpWord(core) <==> Upper(core) in {"HELP", "INFO"}
    ensures IsStartWord(core) <==> Upper(core) in {"START", "UNSTOP"}
  {
    SpellsUpper(core, "STOP");
    SpellsUpper(core, "STOPALL");
    SpellsUpper(core, "UNSUBSCRIBE");
    SpellsUpper(core, "CANCEL");
    SpellsUpper(core, "END");
    SpellsUpper(core, "QUIT");
    SpellsUpper(core, "HELP");
    SpellsUpper(core, "INFO");
    SpellsUpper(core, "START");
    SpellsUpper(core, "UNSTOP");
  }

  /** No word holds white space, and no two words are the same. */
  lemma WordsAreSolid(word: string)
    requires word in {"STOP", "STOPALL", "UNSUBSCRIBE", "CANCEL", "END", "QUIT", "HELP", "INFO", "START", "UNSTOP"}
    ensures forall c <- word :: !IsSpace(c)
  {
  }

  /** A message is a stop, a help or a start word exactly when its core spells one of the six, the two or the two words;
      any other core, one with white space inside or none at all, is no word. */
  lemma WordsAreRead(body: string, c: Cut)
    requires IsCut(body, c)
    ensures KeywordOf(body) == Stop <==> IsStopWord(c.core)
    ensures KeywordOf(body) == Help <==> IsHelpWord(c.core)
    ensures KeywordOf(body) == Start <==> IsStartWord(c.core)
  {
    CoreIsRead(body, c);
    CoreClasses(c.core);
    var read := Upper(c.core);
    if read in {"STOP", "STOPALL", "UNSUBSCRIBE", "CANCEL", "END", "QUIT", "HELP", "INFO", "START", "UNSTOP"} {
      WordsAreSolid(read);
    }
  }

  /** A core with white space inside is no word, whatever its parts are. */
  lemma SpacedIsNoWord(body: string, c: Cut, i: nat)
    requires IsCut(body, c) && i < |c.core| && IsSpace(c.core[i])
    ensures KeywordOf(body) == NoKeyword
  {
    CoreIsRead(body, c);
    UpperKeeps(c.core);
    assert Upper(c.core)[i] in Upper(c.core);
  }

  // ---------------------------------------------------------------- every message can be cut

  lemma {:induction false} CutLeft(s: string) returns (lead: string)
    ensures Blank(lead) && s == lead + TrimLeft(s)
    ensures TrimLeft(s) != "" ==> !Blank([TrimLeft(s)[0]])
  {
    if s != "" && IsSpace(s[0]) {
      var rest := CutLeft(s[1..]);
      lead := [s[0]] + rest;
    } else {
      lead := "";
      if s != "" {
        assert s[0] in [s[0]];
      }
    }
  }

  lemma {:induction false} CutRight(s: string) returns (tail: string)
    ensures Blank(tail) && s == TrimRight(s) + tail
    ensures TrimRight(s) != "" ==> !Blank([TrimRight(s)[|TrimRight(s)| - 1]])
  {
    if s != "" && IsSpace(s[|s| - 1]) {
      var rest := CutRight(s[..|s| - 1]);
      tail := rest + [s[|s| - 1]];
    } else {
      tail := "";
      if s != "" {
        assert s[|s| - 1] in [s[|s| - 1]];
      }
    }
  }

  lemma {:induction false} CutMarks(s: string) returns (marks: string)
    ensures Marks(marks) && s == StripSentenceEnd(s) + marks
    ensures StripSentenceEnd(s) != "" ==> !Marks([StripSentenceEnd(s)[|StripSentenceEnd(s)| - 1]])
  {
    if s != "" && EndsSentence(s[|s| - 1]) {
      var rest := CutMarks(s[..|s| - 1]);
      marks := rest + [s[|s| - 1]];
    } else {
      marks := "";
      if s != "" {
        assert s[|s| - 1] in [s[|s| - 1]];
      }
    }
  }

  lemma EveryTextIsCut(body: string) returns (c: Cut)
    ensures IsCut(body, c)
  {
    var lead := CutLeft(body);
    var tail := CutRight(TrimLeft(body));
    var inner := Trim(body);
    if inner != "" {
      assert inner[0] == TrimLeft(body)[0];
    }
    var core, gap, marks := InnerIsCut(inner);
    c := Cut(lead, core, gap, marks, tail);
    Regroup(lead, core, gap, marks, tail);
  }

  lemma Regroup(lead: string, core: string, gap: string, marks: string, tail: string)
    ensures lead + ((core + gap + marks) + tail) == lead + core + gap + marks + tail
  {
    assert lead + ((core + gap + marks) + tail) == (lead + (core + gap + marks)) + tail;
    assert lead + (core + gap + marks) == ((lead + core) + gap) + marks;
  }

  lemma InnerIsCut(inner: string) returns (core: string, gap: string, marks: string)
    requires inner != "" ==> !Blank([inner[0]]) && !Blank([inner[|inner| - 1]])
    ensures inner == core + gap + marks && IsCut(inner, Cut("", core, gap, marks, ""))
  {
    marks := CutMarks(inner);
    var front := StripSentenceEnd(inner);
    gap := CutRight(front);
    core := TrimRight(front);
    assert inner == core + gap + marks == "" + core + gap + marks + "";
    if inner != "" {
      GapHasCore(inner, core, gap, marks);
    }
  }

  lemma GapHasCore(inner: string, core: string, gap: string, marks: string)
    requires inner == core + gap + marks && inner != "" && Blank(gap)
    requires !Blank([inner[0]]) && !Blank([inner[|inner| - 1]])
    ensures core == "" || marks == "" ==> gap == ""
    ensures core != "" ==> !Blank([core[0]])
  {
    if gap != "" {
      assert inner[|core|] == gap[0] && gap[0] in gap;
      assert inner[|core| + |gap| - 1] == gap[|gap| - 1] && gap[|gap| - 1] in gap;
    }
  }

  /** The message is one of the six stop words, in any case, with white space around and a run of marks after it. */
  ghost predicate StopsTexts(body: string) {
    exists c: Cut :: IsCut(body, c) && IsStopWord(c.core)
  }

  ghost predicate AsksForHelp(body: string) {
    exists c: Cut :: IsCut(body, c) && IsHelpWord(c.core)
  }

  ghost predicate StartsTexts(body: string) {
    exists c: Cut :: IsCut(body, c) && IsStartWord(c.core)
  }

  /** Every message is read by its letters, and no message is two of the three kinds. */
  lemma MessagesAreRead(body: string)
    ensures KeywordOf(body) == Stop <==> StopsTexts(body)
    ensures KeywordOf(body) == Help <==> AsksForHelp(body)
    ensures KeywordOf(body) == Start <==> StartsTexts(body)
  {
    var c := EveryTextIsCut(body);
    WordsAreRead(body, c);
    forall other: Cut | IsCut(body, other)
      ensures IsStopWord(other.core) ==> KeywordOf(body) == Stop
      ensures IsHelpWord(other.core) ==> KeywordOf(body) == Help
      ensures IsStartWord(other.core) ==> KeywordOf(body) == Start
    {
      WordsAreRead(body, other);
    }
  }

  // ---------------------------------------------------------------- what the words do

  /** A customer's HELP or INFO gets the help text alone and changes neither the suppression nor the conversation. */
  lemma HelpChangesNothing(s: State, t: Tenant, ev: Event)
    requires FromCustomer(t, ev) && AsksForHelp(ev.body)
    ensures Texts(s, t, ev) == [Outbound(ev.from, HelpText, Twiml, None)]
    ensures var after := Step(s, t, ev);
            && after.suppressed == s.suppressed && after.suppressedPhones == s.suppressedPhones
            && after.conversation == s.conversation && after.notices == s.notices
  {
    MessagesAreRead(ev.body);
    var r := Record(ev.from, false, false, None, [Outbound(ev.from, HelpText, Twiml, None)], None);
    assert Decide(s, t, ev) == Some(r);
    ProjectTalk(s, r);
    ProjectSuppression(s, r);
  }

  /** A customer's stop word, whatever came before, is confirmed first, sets the flag, lists the number if it has a
      normal form, and ends the conversation with its answers kept. */
  lemma StopWordsSuppress(s: State, t: Tenant, ev: Event)
    requires FromCustomer(t, ev) && StopsTexts(ev.body)
    ensures Shape(Texts(s, t, ev), Some(Outbound(ev.from, StopConfirm, Twiml, None)))
    ensures var after := Step(s, t, ev);
            && after.suppressed
            && (NormalizePhone(ev.from).Some? ==> NormalizePhone(ev.from).value in after.suppressedPhones)
            && (forall phone <- s.suppressedPhones :: phone in after.suppressedPhones)
            && after.conversation == Some((if s.conversation.Some? then s.conversation.value else BLANK).(stage := StoppedTexts))
  {
    MessagesAreRead(ev.body);
    KeywordAnswered(s, t, ev);
    var r := StopRecord(ContextOf(s, t, ev), t);
    assert Decide(s, t, ev) == Some(r);
    ProjectTalk(s, r);
    ProjectSuppression(s, r);
  }

  lemma {:induction false} WithoutDrops(phones: seq<string>, phone: Option<string>)
    ensures forall p :: p in Without(phones, phone) <==> p in phones && Some(p) != phone
  {
    if phones != [] {
      WithoutDrops(phones[1..], phone);
    }
  }

  /** A customer's START or UNSTOP clears the flag, takes the number and no other off the list, and starts afresh. */
  lemma StartWordsClear(s: State, t: Tenant, ev: Event)
    requires FromCustomer(t, ev) && StartsTexts(ev.body)
    ensures Texts(s, t, ev) == [Outbound(ev.from, StartConfirm, Twiml, None)]
    ensures var after := Step(s, t, ev);
            && !after.suppressed && after.conversation == Some(BLANK)
            && (forall p :: p in after.suppressedPhones <==> p in s.suppressedPhones && Some(p) != NormalizePhone(ev.from))
  {
    MessagesAreRead(ev.body);
    var r := Record(ev.from, false, true, Some(BLANK), [Outbound(ev.from, StartConfirm, Twiml, None)], Some(Notice(true, RestartTopic)));
    assert Decide(s, t, ev) == Some(r);
    ProjectTalk(s, r);
    ProjectSuppression(s, r);
    WithoutDrops(s.suppressedPhones, NormalizePhone(ev.from));
  }

  // ---------------------------------------------------------------- over runs, on the messages themselves

  ghost predicate TextsStop(ev: Event, caller: string) {
    ev.Sms? && ev.from == caller && StopsTexts(ev.body)
  }

  ghost predicate TextsStart(ev: Event, caller: string) {
    ev.Sms? && ev.from == caller && StartsTexts(ev.body)
  }

  /** Message k of the caller is a stop word and none after it is a start word. */
  ghost predicate StopHolds(caller: string, events: seq<Event>, k: nat) {
    k < |events| && TextsStop(events[k], caller) && forall j :: k < j < |events| ==> !TextsStart(events[j], caller)
  }

  /** Some message of the caller was a stop word, and none after it a start word. */
  ghost predicate StopIsLast(caller: string, events: seq<Event>) {
    exists k: nat :: StopHolds(caller, events, k)
  }

  lemma StopHoldsStep(caller: string, events: seq<Event>, k: nat)
    requires k < |events|
    ensures var n := |events| - 1;
            StopHolds(caller, events, k) <==>
              if k == n then TextsStop(events[n], caller)
              else !TextsStart(events[n], caller) && StopHolds(caller, events[..n], k)
  {
    var before := events[..|events| - 1];
    assert forall j :: 0 <= j < |before| ==> before[j] == events[j];
  }

  lemma StopIsLastStep(caller: string, events: seq<Event>)
    requires events != []
    ensures var n := |events| - 1;
            StopIsLast(caller, events) <==>
              TextsStop(events[n], caller) || (!TextsStart(events[n], caller) && StopIsLast(caller, events[..n]))
  {
    forall k: nat | k < |events|
      ensures StopHolds(caller, events, k) <==>
                if k == |events| - 1 then TextsStop(events[k], caller)
                else !TextsStart(events[|events| - 1], caller) && StopHolds(caller, events[..|events| - 1], k)
    {
      StopHoldsStep(caller, events, k);
    }
    if TextsStop(events[|events| - 1], caller) {
      assert StopHolds(caller, events, |events| - 1);
    }
  }

  lemma {:induction false} StoppedIsLast(caller: string, events: seq<Event>)
    ensures Stopped(caller, events) <==> StopIsLast(caller, events)
  {
    if events != [] {
      var n := |events| - 1;
      StopIsLastStep(caller, events);
      StoppedIsLast(caller, events[..n]);
      if events[n].Sms? {
        MessagesAreRead(events[n].body);
      }
    }
  }

  /** After every run with one caller the number is suppressed exactly when a stop word of the caller was not followed by
      a start word of theirs; help, other messages, calls, the owner and the dashboard make no difference. */
  lemma SuppressedByMessages(t: Tenant, caller: string, events: seq<Event>)
    requires Customer(t, caller) && SingleCaller(t, caller, events)
    ensures var s := Run(FreshState(), t, events);
            && (s.suppressed <==> StopIsLast(caller, events))
            && s.suppressedPhones == if s.suppressed && NormalizePhone(caller).Some? then [NormalizePhone(caller).value] else []
  {
    SuppressionOverRuns(t, caller, events);
    StoppedIsLast(caller, events);
  }

  /** From a stop word until the caller's next start word, every text addressed to them only answers help or confirms
      the stop. */
  lemma StopWordIsKept(t: Tenant, caller: string, events: seq<Event>, k: nat)
    requires Customer(t, caller) && SingleCaller(t, caller, events)
    requires k < |events| && StopIsLast(caller, events[..k + 1])
    ensures forall o <- Texts(Run(FreshState(), t, events[..k]), t, events[k]) ::
              o.to == caller || Some(o.to) == NormalizePhone(caller) ==> o.purpose == HelpText || o.purpose == StopConfirm
  {
    StoppedIsLast(caller, events[..k + 1]);
    StopIsKept(t, caller, events, k);
  }
}
