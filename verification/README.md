# Message engines: what may be sent, to whom and when

This project models the parts of the repository that decide who may be contacted and when, and proves what those
decisions keep over whole runs. `dafny verify dfyconfig.toml` checks everything.

* **Missed-call text-back** (`products/missed-call-textback/logic/engine.js`). Wall-clock arithmetic over an arbitrary
  zone (`WallClock`) and around clock changes (`ClockChange`), money and XML printers with their readers (`Money`,
  `Twiml`), message templates (`Templates`), the batch planner with its running counters (`Planner`) and what each of its items says
  (`PlannerItems`), the three-step follow-up of an estimate (`FollowupRuns`), and the call, text and dashboard handlers as
  a transition system (`TextBack`, `TextBackHandlers`) with its caps (`TextBackCaps`), opt-outs (`TextBackOptOut`) and lead
  qualification (`TextBackLeads`) over every run, what each text owes to the events behind it (`TextBackReplies`), what
  the words of a message do (`TextBackWords`), and what each single event does (`TextBackSteps`).
* **E-mail conversations** (`src/cloudos/conversations/`). The status table (`Status`), one company's row, log, messages
  and drafts (`Conversation`) with the statement-by-statement store and pipeline (`ConversationStore`) and their run
  properties (`ConversationRuns`) and the effect of each event on every column (`ConversationSteps`), and the mailbox poll
  that may lose the database anywhere (`MailboxSync`, `MailboxRuns`, `MailboxPoll`, `MailboxPassedBy`), with the mail that
  counts as outreach told from the headers alone (`MailboxOutreach`).
* **Small protocols.** The reviewable outbox (`Outbox`), which of its calls send and which are refused (`OutboxCalls`), and
  its JSON repair (`JsonRepair`) (`src/cloudos/email_outbox.py`), the lead ledger (`BrightReach`, `BrightReachRuns`,
  `BrightReachVerdicts`, `src/cloudos/brightreach/service.py`) and the workflow ticker (`Ticker`, `scripts/actions_ticker.py`).

Pure code is functions, with the lemmas about them. Code that works on shared counters, rows, files or a ledger is a
class or a method with a loop, proved equal to a specification function or to preserve an account of the state. What a
specification function decides is characterised a second time without it: by positions in a text, a list or a ledger, by
the rows and headers it was given, or by a reader of what it wrote.
`demo/engine.js` is a copy of the engine and is not modelled a second time. Clocks, offsets, HTTP and SMTP answers, guard
verdicts and message labels are parameters.

Where the code does not do what it is meant to, the model follows the code, and a lemma says exactly when it does:

* The follow-up planner copies every tenant field but the owner's phone, so a planned text differs from its preview
  exactly when the template asks for that phone and the shop has one (`FollowupRuns.PlannedBodyIsPreviewed`,
  `FollowupRuns.OwnerPhoneIsDropped`).
* Near a clock change `nextWindowOpen` can miss the first moment outside quiet hours. It returns that moment exactly under
  the condition of `ClockChange.NextWindowOpenIsLeastExactly`, a moment in the past exactly under that of
  `ClockChange.NextWindowOpenGoesBackExactly`, and one inside quiet hours exactly under that of
  `ClockChange.NextWindowOpenLeavesExactly`. Three nights show each failure: `ClockChange.GapReopensInsideWindow` (too
  early), `ClockChange.RepeatedHourWaitsADay` (a day late) and `ClockChange.SkippedMidnightGoesBack` (in the past).
* A caller without a normal phone number, such as a short code, can set the suppression flag without ever entering the
  list (`TextBackOptOut.FlagMatchesList`, `TextBackOptOut.ShortCodeIsNotListed`). STOP still holds for them
  (`TextBackOptOut.StopIsKept`). This concerns those who use the handlers and the reducer directly: the deployed workflows
  pass such callers without a number (`products/missed-call-textback/scripts/build_workflows.js:190-191`).
* An answer that says "not urgent" counts as urgent, because that word is looked for first
  (`TextBackSteps.NotUrgentIsToday`).
* The pipeline asks for discovered or ready to replied, and the store for interested, qualified or meeting-requested to
  proposal-sent. The transition table has none of these, so those steps are refused and rolled back
  (`ConversationRuns.InboundRefusedExactly`, `ConversationRuns.SendRefusedExactly`, with a concrete case of each).
* `target_for` is documented as never moving out of a terminal state, and the terminal statuses are won, lost and
  do-not-contact. An unclear reply leaves won and most replies leave lost, an unsubscribe moves both to do-not-contact, and
  only do-not-contact is never left (`Status.ClosedMovesExactly`, `Status.ClosedOpensExactly`, with a case of each in
  `Status.WonAndLostAreLeft`).
* The mailbox poll does not look at the status of its fetches. A message that no answer contained, because the server
  refused or left it out, falls behind the saved cursor all the same, neither judged irrelevant nor stored, handled or
  quarantined, and no later ordinary poll searches it (`MailboxRuns.VerdictsAreReadings` says exactly which messages were
  read; `MailboxPassedBy.UnansweredPoll` and `MailboxPassedBy.RecentMailPassedUnread` show the failure).
* A rescan of the mailbox reads only the date window, so a message with an older date that an aborted poll had searched
  can end up behind the cursor unjudged (`MailboxRuns.SearchedIsJudged`, `MailboxPassedBy.RescanPassesBy`).
* When a receipt cannot be rewritten after a delivery, the outbox reports one message more than the receipt lists
  (`Outbox.BatchEnds`, `Outbox.ReceiptBehindReport`).
* The JSON repair takes a line feed after a backslash for an escape and leaves it raw, so a strict reader still refuses
  such a text (`JsonRepair.EscapedBreakStays`).
* A negative amount prints but does not read back (`Money.MoneyRoundTrip`); amounts entered by users are never negative.

## Model

| member | source | states |
|---|---|---|
| WallClock.ConvertExact | products/missed-call-textback/logic/engine.js:148-159 | for any zone with at most one offset change near the requested wall time: if that time exists the result reads back as it, after two of the four corrections; an ambiguous time takes the offset in force there; a skipped one is missed by exactly the gap |
| WallClock.ZonedTimeToUtc | products/missed-call-textback/logic/engine.js:148-159 | the loop with its early exit computes the iterated correction that the exactness results speak of |
| WallClock.ExistsByOffset | products/missed-call-textback/logic/engine.js:148-159 | a wall time near a change exists exactly when one of the two offsets produces it |
| WallClock.PartsReadBack | products/missed-call-textback/logic/engine.js:123-152 | reading an instant in a zone and reassembling it as UTC gives local time without its milliseconds |
| WallClock.NextWindowOpenIsLeast | products/missed-call-textback/logic/engine.js:174-196 | with a fixed offset the result is the least instant at or after the given one outside quiet hours, wrapping windows included |
| WallClock.QuietHoursAre | products/missed-call-textback/logic/engine.js:174-182 | an instant is quiet if and only if its local minute lies on the way round the clock from the start of the window to its end |
| ClockChange.InstantIsConverted | products/missed-call-textback/logic/engine.js:148-159 | near a clock change the instant found for a wall time is written out for every plain, doubled and skipped wall time |
| ClockChange.FirstOpenIsFirst | products/missed-call-textback/logic/engine.js:184-196 | for every zone with one change nearby, a closed formula over the next end of the window, the change and the next end after it gives the first instant outside quiet hours |
| ClockChange.NextWindowOpenIsLeastExactly | products/missed-call-textback/logic/engine.js:184-196 | within three days of one clock change the returned moment is the first one outside quiet hours if and only if the given one is outside already or a condition on the ends of the window and the change holds |
| ClockChange.NextWindowOpenGoesBackExactly | products/missed-call-textback/logic/engine.js:184-196 | the returned moment lies in the past if and only if tomorrow's end of the window is skipped and pulled back beyond the given moment, or doubled and taken before the change |
| ClockChange.NextWindowOpenLeavesExactly | products/missed-call-textback/logic/engine.js:184-196 | the returned moment is outside quiet hours, be it the first or not, if and only if the end taken is not skipped or is pushed out of the window |
| ClockChange.EvenJumpHits | products/missed-call-textback/logic/engine.js:184-196 | the condition holds whenever the skipped or repeated times lie all inside or all outside quiet hours and the window does not end among them |
| WallClock.NextWindowOpenAcrossChange | products/missed-call-textback/logic/engine.js:184-196 | across a clock change it leaves quiet hours if and only if the window's end exists that day or the pushed wall time is outside the window |
| ClockChange.GapReopensInsideWindow | products/missed-call-textback/logic/engine.js:184-196 | a concrete spring-forward night on which the returned moment is still quiet |
| ClockChange.RepeatedHourWaitsADay | products/missed-call-textback/logic/engine.js:184-196 | a concrete autumn night on which the text waits a day though the window opens in twenty minutes |
| ClockChange.SkippedMidnightGoesBack | products/missed-call-textback/logic/engine.js:184-196 | a concrete night on which the returned moment lies in the past |
| WallClock.SchedulesOutsideQuietHours | products/missed-call-textback/logic/engine.js:583-614 | first follow-ups and review requests are set for the first moment outside quiet hours, now or two hours from now |
| ClockChange.SchedulesNearChange | products/missed-call-textback/logic/engine.js:583-614 | near a clock change first follow-ups and review requests wait for the first moment outside quiet hours if and only if the same condition holds at the moment asked for |
| Money.MoneyRoundTrip | products/missed-call-textback/logic/engine.js:91-108 | reading a printed amount returns it for every non-negative number of cents and is refused for every negative one |
| Money.GroupThousands | products/missed-call-textback/logic/engine.js:91-99 | grouping keeps the digits and puts a comma at every fourth character from the right and nowhere else |
| Money.PrintedShape | products/missed-call-textback/logic/engine.js:91-99 | a printed amount is a sign if negative, a dollar sign, the grouped dollars, a point and two digits of cents |
| Money.AmountsExactly | products/missed-call-textback/logic/engine.js:101-108 | a text reads as an amount if and only if without dollar signs, commas and white space it is digits, alone or with a point and one or two digits |
| Money.AmountRead | products/missed-call-textback/logic/engine.js:101-108 | such a text reads as its dollars and cents, a single digit after the point counting tens |
| Money.DecimalRoundTrip | products/missed-call-textback/logic/engine.js:95-107 | decimal printing is undone by digit parsing |
| Twiml.EscapeRoundTrip | products/missed-call-textback/logic/engine.js:74-82 | an XML reader gets any escaped string back, whatever markup or entities it looks like |
| Twiml.EscapedIsClean | products/missed-call-textback/logic/engine.js:74-82 | escaped text holds no tag delimiter and no quote |
| Twiml.MessagesRoundTrip | products/missed-call-textback/logic/engine.js:280-283 | a list of message elements is read back as exactly its recipients and bodies, in order, with what follows untouched |
| Twiml.TwimlRoundTrip | products/missed-call-textback/logic/engine.js:275-286 | a reader recovers the dial element, the spoken text, the message list and the hang-up from the whole document |
| Twiml.DialRoundTrip | products/missed-call-textback/logic/engine.js:471-473 | the dial element with its timeout, action and number is read back, whatever the action and number contain |
| Twiml.ConformingReading | products/missed-call-textback/logic/engine.js:275-286 | a processor that normalises line ends and attribute white space (sections 2.11 and 3.3.3 of XML 1.0) recovers exactly the parts so normalised |
| Twiml.ConformingRoundTrip | products/missed-call-textback/logic/engine.js:275-286 | what was put in comes out unchanged if and only if no text holds a carriage return and no attribute a carriage return, line feed or tab |
| Templates.RenderDiffers | products/missed-call-textback/logic/engine.js:84-89 | blanking a variable changes a rendered text exactly when it has a value and the template uses it |
| Templates.RenderVariable | products/missed-call-textback/logic/engine.js:84-89 | a name in braces becomes the value of its variable, in any letter case |
| Templates.RenderUnknown | products/missed-call-textback/logic/engine.js:84-89 | a name in braces that is no variable disappears |
| Templates.RenderPlain | products/missed-call-textback/logic/engine.js:84-89 | a brace that starts no name, and every other character, stays as it is |
| Templates.FollowupVarsAre | products/missed-call-textback/logic/engine.js:204-220 | what each of the twelve variables of a follow-up stands for |
| Templates.FollowupBodyIs | products/missed-call-textback/logic/engine.js:918-929 | a step renders its own template, or the last one when it has none or an empty one |
| Planner.SentAdjust.Bump | products/missed-call-textback/logic/engine.js:1180-1185 | one send raises the counts of its tenant and of its number there by one and no others |
| Planner.SentAdjust.PlanAndCount | products/missed-call-textback/logic/engine.js:1187-1211 | the row is planned as with a full recount, and the counters are a recount again afterwards |
| Planner.PlanRows | products/missed-call-textback/logic/engine.js:1195-1248 | over the three loops: one item per row, in order, each planned with a recount of the sends before it |
| Planner.PlanWork | products/missed-call-textback/logic/engine.js:1170-1249 | the same for the row planner of the engine, at every position; the items are characterised by the PlannerItems results |
| Planner.SentExactlyWhenReady | products/missed-call-textback/logic/engine.js:938-1249 | an item is a send if and only if its row passes every guard under the recount at its position; never when suppressed or in quiet hours |
| Planner.DailyCap | products/missed-call-textback/logic/engine.js:1170-1249 | for a consistent snapshot a tenant's sends other than health alerts stay within what the daily limit leaves |
| Planner.NumberCap | products/missed-call-textback/logic/engine.js:1065-1079 | one number's ordinary sends stay within its own limit and its revenue reports within the owner limit |
| Planner.SentWhenReady | products/missed-call-textback/logic/engine.js:938-1161 | each of the three row planners sends exactly when the row's guards all pass, to the row's own tenant and number |
| Planner.PlanForIsCareful | products/missed-call-textback/logic/engine.js:938-1161 | no row but a health alert is sent once the adjusted counts have reached its limits |
| PlannerItems.ItemIsAddressed | products/missed-call-textback/logic/engine.js:1170-1249 | at every position the item and its mark carry the row's own numbers, shop, id and purpose; the authorisation is the encoded credentials exactly in live mode with both set, and empty otherwise; a send is marked sent in live mode and mock-sent otherwise |
| PlannerItems.FollowupItem | products/missed-call-textback/logic/engine.js:938-1032 | a follow-up that is sent carries the previewed body of its step with the owner's phone blanked, and a held one nothing |
| PlannerItems.QueuedItem | products/missed-call-textback/logic/engine.js:1212-1229 | a queued item and its mark carry the row's body |
| PlannerItems.ReviewItem | products/missed-call-textback/logic/engine.js:1092-1161 | a review request that is sent names the shop, holds the link with its token on the public address, tells how to opt out, and begins as a reminder if and only if it is one; a held one carries nothing |
| PlannerItems.FollowupItemIsMarked | products/missed-call-textback/logic/engine.js:938-1032 | under the recount at its position each status of a follow-up occurs if and only if its own reason is the first to apply, with the time, step and estimate status that follow from it |
| PlannerItems.QueuedItemIsMarked | products/missed-call-textback/logic/engine.js:1034-1088 | the same for queued texts, health alerts and revenue reports |
| PlannerItems.ReviewItemIsMarked | products/missed-call-textback/logic/engine.js:1099-1161 | the same for review requests |
| PlannerItems.RecountIsCount | products/missed-call-textback/logic/engine.js:1180-1193 | the recount is the number of places of the list that are sends of the shop, and of the shop to the number |
| FollowupRuns.RunKeepsGood | products/missed-call-textback/logic/engine.js:938-1032 | in every run an open estimate has a step below three and a next time, a closed one has none, and the confirmed texts are the planned bodies in order, as many as the step index |
| FollowupRuns.PlanKeepsGood | products/missed-call-textback/scripts/build_workflows.js:466-485 | a planned mark keeps that, and so does one sent back for retry because no message id came |
| FollowupRuns.ConfirmedArePreviewed | products/missed-call-textback/logic/engine.js:1251-1265 | in every run the customer gets at most three texts, each equal to its preview exactly when the owner's phone is unused or empty |
| FollowupRuns.PlannedBodyIsPreviewed | products/missed-call-textback/logic/engine.js:918-951 | planned and previewed bodies agree if and only if the template does not use the owner's phone or there is none |
| FollowupRuns.SendSchedulesPreview | products/missed-call-textback/logic/engine.js:931-936 | each send schedules the next step at the previewed time, and the third closes the estimate |
| FollowupRuns.ClosedStaysClosed | products/missed-call-textback/logic/engine.js:938-1032 | a closed estimate is never opened or texted again |
| FollowupRuns.SentNotBeforePreview | products/missed-call-textback/logic/engine.js:931-1032 | over every run whose passes do not go back in time no text goes out before its previewed time, through deferrals and retries |
| FollowupRuns.PreviewTimesAre | products/missed-call-textback/logic/engine.js:1251-1258 | the second and third texts are previewed for ten o'clock two and five local days after the estimate was made |
| FollowupRuns.RetryLeaves | products/missed-call-textback/scripts/build_workflows.js:466-485 | a live text without a message id changes nothing but the time, set to fifteen minutes from then; one with an id counts as sent |
| FollowupRuns.OwnerPhoneIsDropped | products/missed-call-textback/logic/engine.js:938-951 | a template that is just the owner phone is previewed as that phone and sent as an empty text |
| TextBackHandlers.Desk.OwnerAlert | products/missed-call-textback/logic/engine.js:254-273 | the alert's pushes, counter bumps and pause latch are those of the specification |
| TextBackHandlers.MissedCallHandler | products/missed-call-textback/logic/engine.js:340-437 | the step-by-step handler gives the record of the specification for every context |
| TextBackHandlers.CustomerSmsHandler | products/missed-call-textback/logic/engine.js:797-916 | the step-by-step handler, which advances first and discards on a used-up limit, gives the record of the specification; TextBackWords and TextBackSteps say what that record does |
| TextBackCaps.CapsHoldOverRuns | products/missed-call-textback/logic/engine.js:222-273 | over every day's run from any callers: metered texts stay within the daily limit, automatic texts to each number within its limit, alerts within the owner limit; at most one pause notice, no alert after it; the counters are recounts of the log |
| TextBackCaps.TextsAdmissible | products/missed-call-textback/logic/engine.js:340-437 | every text any handler emits is within the limits at its own place in the log |
| TextBackCaps.AllAdmissibleKeepCaps | products/missed-call-textback/logic/engine.js:254-273 | adding such texts one after another keeps all caps and the pause rule |
| TextBackCaps.StepLogsTexts | products/missed-call-textback/logic/engine.js:1511-1519 | folding a record appends exactly its texts and keeps the counters equal to a recount |
| TextBackCaps.OwnerAlertTracks | products/missed-call-textback/logic/engine.js:254-273 | an owner alert adds an admissible text or none, and the batch counters still match the log |
| TextBackOptOut.SuppressionOverRuns | products/missed-call-textback/logic/engine.js:1489-1499 | in every run with one caller, flag and list both say whether that caller's last stop or start keyword was a stop; on the texts themselves it is TextBackWords.SuppressedByMessages |
| TextBackOptOut.FlagMatchesList | products/missed-call-textback/logic/engine.js:1489-1499 | flag and list agree after a run if and only if the caller has a normal form or is not stopped |
| TextBackOptOut.ShortCodeIsNotListed | products/missed-call-textback/logic/engine.js:1489-1499 | a concrete short code that texts STOP sets the flag and is not listed |
| TextBackOptOut.StopIsKept | products/missed-call-textback/logic/engine.js:797-856 | from a stop keyword to that caller's next start keyword every text to them, from calls, texts, owner replies or the dashboard, is a help answer or the stop confirmation; on the texts themselves it is TextBackWords.StopWordIsKept |
| TextBackOptOut.RepliesRefused | products/missed-call-textback/logic/engine.js:616-633 | a stopped caller counts as opted out however the owner writes the number |
| TextBackOptOut.NormalFormStays | products/missed-call-textback/logic/engine.js:29-43 | normalizing a normalized phone number changes nothing |
| TextBackLeads.SoundOverRuns | products/missed-call-textback/logic/engine.js:857-884 | in every run each conversation stage has the non-empty answers of all earlier stages |
| TextBackLeads.CallsNeverReset | products/missed-call-textback/logic/engine.js:372-387 | a later call or dashboard action leaves an existing conversation as it is |
| TextBackLeads.UnansweredNeverAdvances | products/missed-call-textback/logic/engine.js:857-897 | an empty, suppressed or rate-limited text never advances a conversation |
| TextBackLeads.ConversationMoves | products/missed-call-textback/logic/engine.js:797-916 | a conversation changes only by STOP, START, a first call or an answered text, and the qualified-lead alert belongs to one kind of answer only |
| TextBackLeads.QualifiedAtMostOnce | products/missed-call-textback/logic/engine.js:875-913 | in any stretch without a START the qualified-lead alert fires at most once, and never after hand-off or STOP |
| TextBackReplies.NobodyTextedUnprompted | products/missed-call-textback/logic/engine.js:340-388 | over every run the texts the engine sent or queued to a number are exactly as many as its calls and texts that were to be answered, never more than it made |
| TextBackReplies.AlertsAreHandOvers | products/missed-call-textback/logic/engine.js:875-913 | over every run the qualified-lead alerts are as many as the entries of the conversation into the hand-over |
| TextBackReplies.LeadsSaidSo | products/missed-call-textback/logic/engine.js:857-884 | over every run a handed-over lead holds the need, location and urgency said in three texts of the run, in that order |
| TextBackReplies.OwnerRepliesCapped | products/missed-call-textback/logic/engine.js:761-795 | over every run the replies the owner sends by text never exceed the daily limit of one number, because the owner count that allows each of them grows with it |
| TextBackWords.WordsAreRead | products/missed-call-textback/logic/engine.js:24-56 | a message is a stop, help or start word if and only if its core, in any letter case, with white space around it and a run of marks behind it, spells one of the six, two and two words |
| TextBackWords.SpacedIsNoWord | products/missed-call-textback/logic/engine.js:45-56 | a core with white space inside is no word |
| TextBackWords.EveryTextIsCut | products/missed-call-textback/logic/engine.js:45-52 | every message can be cut into white space, core, gap, marks and white space |
| TextBackWords.MessagesAreRead | products/missed-call-textback/logic/engine.js:45-56 | every message is read by its letters, and no message is two of the three kinds |
| TextBackWords.HelpChangesNothing | products/missed-call-textback/logic/engine.js:813-816 | a customer's HELP or INFO gets the help text alone and changes neither suppression nor conversation, suppressed or not |
| TextBackWords.StopWordsSuppress | products/missed-call-textback/logic/engine.js:818-833 | each of the six words is confirmed first, sets the flag, lists a number that has a normal form, and stops the conversation with its answers kept |
| TextBackWords.StartWordsClear | products/missed-call-textback/logic/engine.js:847-856 | START or UNSTOP clears the flag, takes this number and no other off the list and starts the conversation afresh |
| TextBackWords.SuppressedByMessages | products/missed-call-textback/logic/engine.js:1489-1499 | after every run with one caller the number is suppressed if and only if one of its stop words was not followed by one of its start words |
| TextBackWords.StopWordIsKept | products/missed-call-textback/logic/engine.js:797-856 | from a stop word to the caller's next start word every text to them is a help answer or the stop confirmation |
| TextBackSteps.PhoneExactly | products/missed-call-textback/logic/engine.js:29-43 | a number has a normal form if and only if it has ten to fifteen digits behind a plus, ten at home or eleven with the country's 1, and which |
| TextBackSteps.DigitsAre | products/missed-call-textback/logic/engine.js:33 | a character of a number counts if and only if it is a digit |
| TextBackSteps.DigitsJoin | products/missed-call-textback/logic/engine.js:33 | the digits of a number keep their order |
| TextBackSteps.ClipExactly | products/missed-call-textback/logic/engine.js:58-62 | an answer is kept as written without the white space around it, up to its limit |
| TextBackSteps.UrgencyExactly | products/missed-call-textback/logic/engine.js:514-520 | which words make an urgency today's, the week's or flexible, in that order, and that any other answer is kept |
| TextBackSteps.NotUrgentIsToday | products/missed-call-textback/logic/engine.js:514-520 | any answer that says "not urgent" counts as wanted today |
| TextBackSteps.AdvanceExactly | products/missed-call-textback/logic/engine.js:857-884 | an answered text fills the first open question and only that, moves one stage on, and qualifies at the last one |
| TextBackSteps.ConversationExactly | products/missed-call-textback/logic/engine.js:340-388 | apart from stop and start words a conversation is opened by a call that is texted back, advanced by an answered text and otherwise left alone |
| TextBackSteps.AlertExactly | products/missed-call-textback/logic/engine.js:254-273 | an owner alert is texted if and only if both limits leave room, the pause notice if and only if only the owner's own limit stands against it and it was not sent yet |
| TextBackSteps.EventAlerts | products/missed-call-textback/logic/engine.js:340-437 | every missed call and every customer's text but help and start words alerts the owner as far as the limits behind its own text allow, and the notice tells whether the alert was texted |
| TextBackSteps.NoticeExactly | products/missed-call-textback/logic/engine.js:797-916 | which notice a customer's text leaves on the board |
| TextBackSteps.CallNoted | products/missed-call-textback/logic/engine.js:340-512 | a missed call is noted once, a repeated one changes nothing, and a call that rings or was answered sends nothing and is noted only if the owner could not be rung |
| TextBackSteps.OwnerTextsAre | products/missed-call-textback/logic/engine.js:761-795 | an owner's text sends its reply if and only if it is one, the number is not barred in any spelling and both limits leave room, and then gets exactly one answer |
| TextBackSteps.DashboardTextsAre | products/missed-call-textback/logic/engine.js:1271-1368 | the dashboard sends a reply or a confirmation if and only if its own conditions hold, and nothing else |
| Status.TargetFor | src/cloudos/conversations/status.py:73-90 | the target is the current status or an allowed one, never lower in the funnel, never newly before the first reply; unsubscribe and do-not-contact end in do-not-contact |
| Status.TargetForMoves | src/cloudos/conversations/status.py:73-90 | the company moves exactly when the table allows the label's own target and it is no step down, with one exception and two detours |
| Status.ClosedMovesExactly | src/cloudos/conversations/status.py:73-90 | a reply changes a won, lost or do-not-contact status if and only if it stops or questions a won deal, or answers a lost one with none of five labels |
| Status.ClosedOpensExactly | src/cloudos/conversations/status.py:9-90 | a reply takes a company out of those statuses if and only if it questions a won deal, or answers a lost one with none of those labels and no unsubscribe |
| Status.WonAndLostAreLeft | src/cloudos/conversations/status.py:73-90 | a concrete reply that leaves won and one that leaves lost |
| Status.AllowedInto | src/cloudos/conversations/status.py:18-38 | from which statuses each status can be reached |
| Status.LabelsPointingAt | src/cloudos/conversations/status.py:41-57 | which labels point at each status |
| Status.RanksAreTheFunnel | src/cloudos/conversations/status.py:13-15 | the ranks are the places of the eleven statuses of the funnel |
| ConversationRuns.SoundOverRuns | src/cloudos/conversations/store.py:53-108 | owner actions included: the do-not-contact flag equals the status, the cold sequence runs only before a reply and never after a bounce, and the log is a path in the table whose replay gives the status |
| ConversationRuns.ReplayEnds | src/cloudos/conversations/store.py:101-103 | replaying a log that is a path ends where its last entry says |
| ConversationRuns.LogFollows | src/cloudos/conversations/store.py:81-103 | every accepted status change extends the path by one edge |
| ConversationRuns.InboundRefusedExactly | src/cloudos/conversations/pipeline.py:123-150 | a reply is refused if and only if it is new, human, arrives before any e-mail and is none of three labels |
| ConversationRuns.SendRefusedExactly | src/cloudos/conversations/store.py:150-195 | a confirmed send is refused if and only if it lacks an id or a known kind, or is a new proposal from one of three statuses |
| ConversationRuns.StoredIsIdempotent | src/cloudos/conversations/store.py:121-134 | once a message is stored, seeing its id again changes nothing, whatever happened in between |
| ConversationRuns.NoWayBack | src/cloudos/conversations/status.py:73-94 | without the owner do-not-contact is final, no run returns to a status before the first reply, and an ended cold sequence stays ended |
| ConversationRuns.HumanReplyEndsSequence | src/cloudos/conversations/pipeline.py:124-150 | after a processed human reply no later unattended step makes the cold sequence active |
| ConversationRuns.QueueOverRuns | src/cloudos/conversations/store.py:256-267 | owner actions included: at most one draft of each kind is pending, and none for a do-not-contact company unless the owner made it one |
| ConversationRuns.NonePendingUnattended | src/cloudos/conversations/pipeline.py:162-170 | without the owner no draft is pending for a do-not-contact company |
| ConversationRuns.OwnerLeavesDraft | src/cloudos/conversations/store.py:81-108 | a concrete company that the owner puts on do-not-contact while a draft is pending, which stays pending |
| ConversationSteps.FirstRows | src/cloudos/conversations/store.py:12-75 | which lead-engine statuses each first status, the cold flag and the bounce mark stand for |
| ConversationSteps.DraftKindsExactly | src/cloudos/conversations/pipeline.py:188-222 | each draft kind is prepared for exactly these replies and hints |
| ConversationSteps.ReplyLeaves | src/cloudos/conversations/pipeline.py:123-150 | a processed reply leaves its message, the status of its label, one log entry if that moves, and the cold, bounce and do-not-contact columns as stated |
| ConversationSteps.ReplyPrepares | src/cloudos/conversations/pipeline.py:162-236 | the drafts after a reply are the old ones, pending ones of its kinds replaced or all discarded on an unsubscribe, and one new one for each kind unless the company must not be contacted; and the proposal column when it is ready to buy |
| ConversationSteps.SendLeaves | src/cloudos/conversations/store.py:150-205 | a confirmed send leaves its message, the status, sequence and proposal that follow from what was sent and where the company was |
| ConversationSteps.SendDrafts | src/cloudos/conversations/store.py:198-205 | the draft that went out is marked, older pending drafts of an answering kind are superseded, and no other changes |
| ConversationSteps.OwnerLeaves | src/cloudos/conversations/store.py:81-108 | what the owner's choice of status, a won deal and a rejected address leave |
| ConversationSteps.GroundedOverRuns | src/cloudos/conversations/store.py:256-267 | in every run each draft answers a message stored before it |
| ConversationRuns.EarlyReplyIsLost | src/cloudos/conversations/pipeline.py:148-150 | a concrete interested reply before any e-mail that is refused and not recorded |
| ConversationRuns.EarlyProposalIsLost | src/cloudos/conversations/store.py:191-195 | a concrete proposal to an interested company that is refused and not recorded |
| ConversationStore.Company.ChangeStatus | src/cloudos/conversations/store.py:81-108 | writing the columns one by one has the specified whole effect, or none when the transition is illegal |
| ConversationStore.Company.RecordConfirmedSend | src/cloudos/conversations/store.py:150-205 | a send commits the specified row, or leaves the row untouched when it is a duplicate or refused after its message was inserted |
| ConversationStore.Company.ReceiveReply | src/cloudos/conversations/pipeline.py:71-174 | a reply commits the specified row, or leaves the row untouched when it is a duplicate or refused half-way |
| ConversationStore.Company.AddDraftRow | src/cloudos/conversations/store.py:256-267 | a new draft supersedes the pending ones of its kind unless one already answers the same message |
| MailboxSync.FloorAbsorbs | src/cloudos/conversations/gmail_sync.py:154-160 | filtering the `n:*` search by the cursor leaves exactly the newer messages (section 6.4.8 of RFC 3501) |
| MailboxSync.SearchFinds | src/cloudos/conversations/gmail_sync.py:153-160 | a poll finds exactly the messages past the cursor, or on a first run and a rescan exactly those in the date window, in ascending order |
| MailboxSync.LearningKeepsRelevance | src/cloudos/conversations/gmail_sync.py:112-118 | learning an outbound message never makes mail irrelevant, and its replies are recognised from then on |
| MailboxRuns.AnswerInSamePoll | src/cloudos/conversations/gmail_sync.py:215-234 | an answer that arrives in the same poll as the mail it answers is opened |
| MailboxRuns.StoredStays | src/cloudos/conversations/gmail_sync.py:153-196 | over any polls, wherever they end, nothing stored is changed, also by reading a half-done batch again |
| MailboxRuns.CursorForward | src/cloudos/conversations/gmail_sync.py:168-196 | the cursor never goes back within one UIDVALIDITY, over any run of a mailbox that may lose mail |
| MailboxRuns.WorkCursor | src/cloudos/conversations/gmail_sync.py:168-196 | however the batches end, the cursor stands behind the last message of the batches that were saved, never before where it was |
| MailboxRuns.SavesToTheFirstBreak | src/cloudos/conversations/gmail_sync.py:168-196 | a poll saves its list by the hundred up to the first batch that loses the database or behind which it ends |
| MailboxRuns.SavedBefore | src/cloudos/conversations/gmail_sync.py:168-196 | every batch before that was saved |
| MailboxRuns.CappedIs | src/cloudos/conversations/gmail_sync.py:160-162 | a poll looks at the first messages of its search, as many as its limit allows |
| MailboxRuns.JudgedExactly | src/cloudos/conversations/gmail_sync.py:153-196 | over every run, rescans, aborted polls and deletions included: a message still there and at or below the cursor has a verdict if and only if it is in the date window or the poll that moved the cursor past it went on from the cursor |
| MailboxRuns.VerdictsAreReadings | src/cloudos/conversations/gmail_sync.py:170-190 | a message has a verdict if and only if a poll judged it, and the verdict is irrelevant, stored, handled or quarantined if and only if the fetches of the last such poll contained its header and, where relevant, its body |
| MailboxRuns.RecentMailIsJudged | src/cloudos/conversations/gmail_sync.py:153-196 | recent mail still in the mailbox never falls behind the cursor unjudged, and was read if and only if it was fetched |
| MailboxRuns.SearchedIsJudged | src/cloudos/conversations/gmail_sync.py:153-196 | a message that an ordinary poll searched, still there and at or below the cursor, is judged if and only if it is recent or the poll that moved the cursor past it was no rescan |
| MailboxRuns.FoundAgain | src/cloudos/conversations/gmail_sync.py:153-160 | a message searched, still there and not yet behind the cursor is found by the next ordinary search |
| MailboxRuns.CaughtUp | src/cloudos/conversations/gmail_sync.py:153-196 | after any run that ends with an undisturbed poll all recent mail is judged, what that poll found by that poll itself, read if and only if fetched, and stored if judged stored |
| MailboxRuns.OnlyRelevantStored | src/cloudos/conversations/gmail_sync.py:215-234 | each stored message was opened by the poll that brought it in; by the headers alone it is MailboxOutreach.OnlyOutreachStored |
| MailboxOutreach.OpenedExactly | src/cloudos/conversations/gmail_sync.py:215-234 | a message of a poll is opened if and only if it is outreach by the headers of the list: a readable message, no draft, that continues a thread of ours or comes from an address or business we mailed before or earlier in the list, or that is ours, no prepared reply, and marked, labelled or sent to such a recipient |
| MailboxOutreach.FateExactly | src/cloudos/conversations/gmail_sync.py:168-190 | every message of a list is unfetched, quarantined, irrelevant, stored, handled or lost if and only if its headers and its handling say so |
| MailboxOutreach.OnlyOutreachStored | src/cloudos/conversations/gmail_sync.py:215-234 | personal mail is never stored: over every run each stored message was outreach by the headers of a poll that listed it |
| MailboxOutreach.VerdictsByHeaders | src/cloudos/conversations/gmail_sync.py:168-196 | over every run each verdict is the one that the headers and the handling of the last judging poll give |
| MailboxOutreach.OutreachIsStored | src/cloudos/conversations/gmail_sync.py:168-196 | outreach in a saved batch whose body came and is to be stored is stored, then and in every later state of the run |
| MailboxOutreach.StrangerIsIrrelevant | src/cloudos/conversations/gmail_sync.py:215-234 | a concrete stranger's mail is judged irrelevant however its body would be handled, and nothing is stored |
| MailboxPassedBy.UnansweredPoll | src/cloudos/conversations/gmail_sync.py:170-196 | when the fetches are not answered the poll stores nothing and moves its cursor past everything that it found |
| MailboxPassedBy.RecentMailPassedUnread | src/cloudos/conversations/gmail_sync.py:170-196 | a concrete mailbox whose one recent message ends up behind the cursor, unread and never searched again |
| MailboxPassedBy.RescanPassesBy | src/cloudos/conversations/gmail_sync.py:154-168 | a concrete run from an empty database whose rescan passes by a message that an ordinary poll had searched |
| MailboxPoll.Mailbox.Batch | src/cloudos/conversations/gmail_sync.py:169-190 | looking at all headers first and then opening the relevant messages gives every message its own fate, up to the loss of the database |
| MailboxPoll.Mailbox.WorkThrough | src/cloudos/conversations/gmail_sync.py:168-196 | the batch loop with its saved cursor is the specified one, wherever it ends |
| MailboxPoll.Mailbox.PollOnce | src/cloudos/conversations/gmail_sync.py:135-196 | one poll turns the stored state into the specified one |
| MailboxPoll.Mailbox.RunPolls | src/cloudos/conversations/gmail_sync.py:135-212 | a series of polls does what the run properties speak of |
| JsonRepair.RepairJson | src/cloudos/email_outbox.py:125-154 | the scanner loop computes the repair of the specification, which JsonRepair.RepairOnText tells on the text alone |
| JsonRepair.ScannerFollowsText | src/cloudos/email_outbox.py:133-153 | after any prefix the scanner is escaped if and only if an odd run of backslashes ends there, and inside a string if and only if an odd number of unescaped quotes came before |
| JsonRepair.RepairOnText | src/cloudos/email_outbox.py:125-154 | the repair writes each line feed that stands unescaped inside a string as an escape, leaves out each such carriage return and keeps every other character |
| JsonRepair.NoBreaksLeft | src/cloudos/email_outbox.py:125-154 | the repaired text has no unescaped raw break inside a string, by quotes and runs of backslashes |
| JsonRepair.RepairKeepsDocument | src/cloudos/email_outbox.py:125-154 | a reader that takes a backslash and the next character as one pair (section 7 of RFC 8259) decodes the same document before and after |
| JsonRepair.RepairKeepsMeaning | src/cloudos/email_outbox.py:125-154 | the scanner ends in the same state, no unescaped raw break is left in a string, and a reader decodes the same document with raw line feeds kept and raw carriage returns dropped (section 7 of RFC 8259) |
| JsonRepair.UnchangedExactlyWhenFine | src/cloudos/email_outbox.py:125-154 | a text comes back unchanged if and only if it had no unescaped raw break inside a string |
| JsonRepair.EscapedBreakStays | src/cloudos/email_outbox.py:137-144 | a concrete string whose line feed follows a backslash and stays raw |
| JsonRepair.RepairTwice | src/cloudos/email_outbox.py:125-154 | repairing twice is repairing once |
| JsonRepair.BareObjects | src/cloudos/email_outbox.py:109-121 | the brace scan finds exactly the outermost closed objects |
| Outbox.Load | src/cloudos/email_outbox.py:41-80 | a draft loads if and only if it has one to ten acceptable rows with distinct recipients |
| Outbox.FineRowsDistinct | src/cloudos/email_outbox.py:56-65 | loaded recipients are pairwise distinct, letter case aside |
| Outbox.BatchEnds | src/cloudos/email_outbox.py:279-316 | a batch succeeds if and only if nothing goes wrong at any turn, and then all is sent and listed; otherwise the receipt lists the messages before the first turn that went wrong, all deliveries or all but the last, the reported count is one above the receipt if and only if that turn failed to rewrite the receipt, and nothing goes out that the guard refused at its turn |
| Outbox.ReceiptBehindReport | src/cloudos/email_outbox.py:300-309 | a concrete batch of one message that is delivered and reported but not listed |
| Outbox.RunKeepsAccount | src/cloudos/email_outbox.py:181-317 | over any calls ending anywhere, with drafts rewritten in between: without a receipt nothing was sent, with one the deliveries are a prefix of the recipients and the receipt trails by at most one; an attempted draft is never touched again |
| Outbox.SentAtMostOnce | src/cloudos/email_outbox.py:239-317 | from an empty outbox no run ever sends to a recipient twice under one draft and fingerprint |
| Outbox.AtMostOnce | src/cloudos/email_outbox.py:263-317 | in every consistent state no recipient of a draft and fingerprint has been sent to twice |
| Outbox.OutboxStore.Send | src/cloudos/email_outbox.py:239-317 | the call has the specified outcome, receipt and deliveries for every refusal, failure and interruption; OutboxCalls says when each occurs |
| Outbox.OutboxStore.SendBatch | src/cloudos/email_outbox.py:279-316 | the sending loop ends exactly as specified at each turn that can end it |
| Outbox.OutboxStore.Precheck | src/cloudos/email_outbox.py:239-261 | the checks come in the order of the specification, whose refusals are characterised by OutboxCalls.RefusedExactly |
| Outbox.OutboxStore.CreateDraft | src/cloudos/email_outbox.py:181-202 | a draft file is kept if and only if its id is well formed and it loads |
| Outbox.OutboxStore.RunCalls | src/cloudos/email_outbox.py:181-317 | a series of calls does what the run properties speak of |
| OutboxCalls.LoadsExactly | src/cloudos/email_outbox.py:41-80 | a draft loads to exactly the messages its rows say: one to ten, each row with its recipient, one-line subject of up to two hundred characters, text and known kind, no two recipients alike |
| OutboxCalls.SendsExactly | src/cloudos/email_outbox.py:239-317 | a call changes receipts or mail log if and only if it sends a draft that says exactly what was confirmed, with sending enabled and credentials, every recipient the owner's or cleared by the guard, no receipt yet and no early stop |
| OutboxCalls.RefusedExactly | src/cloudos/email_outbox.py:239-261 | every refusal occurs if and only if its own condition is the first to fail |
| OutboxCalls.EndsExactly | src/cloudos/email_outbox.py:279-316 | outcome, deliveries, receipt and status are those of the first turn that goes wrong |
| OutboxCalls.AttemptLeaves | src/cloudos/email_outbox.py:263-317 | a call that sends leaves its receipt and delivers in order a first part of the draft |
| OutboxCalls.ReceiptHasCall | src/cloudos/email_outbox.py:239-317 | over every run each receipt belongs to a call that met all conditions when it was made |
| OutboxCalls.DeliveryHasCall | src/cloudos/email_outbox.py:239-317 | over every run each delivery belongs to such a call, to a recipient of its draft who is the owner or was cleared |
| OutboxCalls.WritesExactly | src/cloudos/email_outbox.py:181-202 | writing a draft puts exactly its rows in place if they say anything and removes it otherwise, and touches nothing else |
| BrightReach.Assess | src/cloudos/brightreach/service.py:253-288 | the reasons listed are exactly those that hold, none exactly when the lead meets every requirement, and the status read off them is the verdict |
| BrightReachVerdicts.VerdictExactly | src/cloudos/brightreach/service.py:253-288 | review, not qualified and qualified each occur if and only if the terms mentioned, the place, the wish and the last answers say so |
| BrightReachVerdicts.KnownLeadAppends | src/cloudos/brightreach/service.py:244-347 | what qualifying, following up and booking append, from the last and first events about the lead and its client |
| BrightReachVerdicts.UnknownLeadAppends | src/cloudos/brightreach/service.py:186-199 | nothing is appended about a lead that no event is about |
| BrightReachVerdicts.CreationAppends | src/cloudos/brightreach/service.py:207-236 | a lead is created for known clients only, and gets a response unless it opted out |
| BrightReachRuns.SoundOverRuns | src/cloudos/brightreach/service.py:207-347 | over every run: a qualified or booked lead meets its client's requirements, bookings number one exactly when booked, opted-out leads never get a response or follow-up |
| BrightReachRuns.ClosedIsFinal | src/cloudos/brightreach/service.py:244-334 | after opted-out, booked or not-qualified no later event of the ledger is about the lead |
| BrightReachRuns.BookedMatchesBookings | src/cloudos/brightreach/service.py:349-365 | a client's booked leads are as many as its booking events |
| BrightReachRuns.CreatedUnderOwnClient | src/cloudos/brightreach/service.py:192-223 | a lead is created once, under the client of its first event |
| BrightReachRuns.Service.MakeReport | src/cloudos/brightreach/service.py:349-370 | after every run the three breakdowns each sum to the leads, every status, source and campaign is counted as often as leads have it, and bookings equal booked leads and booking events |
| BrightReachRuns.Service.QualifyLead | src/cloudos/brightreach/service.py:244-305 | qualifying appends what the command specification says and returns the lead's new status |
| BrightReachRuns.Service.Book | src/cloudos/brightreach/service.py:327-347 | only a qualified lead becomes booked, and a refusal records nothing |
| Ticker.SlotEvery10MinIsLatest | scripts/actions_ticker.py:32-33 | the slot is the greatest ten-minute mark not after now |
| Ticker.SlotLeadEngineIsLatest | scripts/actions_ticker.py:36-41 | the slot is the greatest seventeen past a third hour not after now |
| Ticker.FindSlotLeadEngine | scripts/actions_ticker.py:36-41 | the backward walk finds that slot in at most three steps |
| Ticker.FindSlotEmailAlerts | scripts/actions_ticker.py:44-49 | the walk over local hours finds the greatest alert time not after now in at most seven steps |
| Ticker.LatestIsMonotone | scripts/actions_ticker.py:32-49 | slots never run backwards, and a slot is its own slot |
| Ticker.AtMostOncePerSlot | scripts/actions_ticker.py:98-113 | over any ticks, failures, other runs and restarts each slot of a workflow is started at most once |
| Ticker.StartedWithinGrace | scripts/actions_ticker.py:98-113 | after any run, an error-free tick within the grace leaves the slot with a run |
| Ticker.StartedExactlyOnce | scripts/actions_ticker.py:98-113 | after any run of ticks, errors and restarts, once an error-free tick comes within the grace the slot has been started exactly once in all, by that tick or an earlier one, if nothing but the ticker ran the workflow since |
| Ticker.StartedOnceForGood | scripts/actions_ticker.py:98-113 | whatever happens later, a slot started once stays started once |
| Ticker.DoneOverRuns | scripts/actions_ticker.py:98-113 | a slot is marked done only when it has a run or is past its grace |
| Ticker.TurnExactly | scripts/actions_ticker.py:98-113 | one turn starts a workflow, and marks its slot, if and only if the stated conditions on marks, query, runs, grace and dispatch hold |
| Ticker.StartInGrace | scripts/actions_ticker.py:98-113 | over every run each start was made by a tick in its slot and within its grace |
| Ticker.StartedOnTime | scripts/actions_ticker.py:32-58 | over every run of the four workflows each start is at most ten minutes after a ten-minute mark, or at most an hour after an alert hour or minute seventeen of a third hour |
| Ticker.TargetsFit | scripts/actions_ticker.py:53-58 | the four workflows are distinct and their slot functions never run ahead, never run backwards and map a slot to itself |
| Ticker.TickerProcess.TickAll | scripts/actions_ticker.py:98-113 | one pass over the targets has the specified effect on marks, runs and starts |

## Left out

Abstracted inside the modelled parts:

- Calendar dates are day numbers, clock strings are optional minutes, and a zone is any offset function; `Intl`, `ZoneInfo` and the Gregorian conversion are not modelled.
- WallClock.NextWindowOpenIsLeast: stated for a fixed offset; ClockChange.NextWindowOpenIsLeastExactly is the case of one change within three days, and zones that change more often than that are left out.
- Strings are sequences of characters with ASCII letter case and white space; amounts are exact integers, so floating point beyond 2^53 is not modelled.
- Templates.Render: a placeholder naming an inherited JavaScript property counts as an unknown variable.
- Twiml.BuildTwiml: the dial element is the one that a ringing call produces, not arbitrary markup.
- Planner: review tokens are taken as already safe for a URL, and base64 is any function; due-work queries, `mark_outbound` and the daily counts in the database are inputs.
- FollowupRuns: a mark is applied as the update it describes, together with the plan it came from, and each Twilio answer is taken with its own mark; planning and marking are one step.
- TextBack: message wording, webhooks, the call and message lists, estimates, review requests and the owner's command grammar are left out; a parsed command is an input.
- TextBackCaps.CapsHoldOverRuns: no per-customer limit for owner replies is claimed, because the code reads the owner's own count there (OwnerRepliesCapped says what that does limit); queued texts are counted when the planner sends them.
- TextBackOptOut.SuppressionOverRuns: runs with several customers are left out, because the reducer keeps one flag for all of them.
- TextBackLeads.QualifiedAtMostOnce: speaks of the alert on the owner's board; the webhook code for a qualified lead repeats on every text after hand-off.
- Conversation: subjects, facts, the attention queue, suppression tables, notifications and draft wording are left out; labels are inputs; the draft state `approved` is never set by this code and is not modelled.
- MailboxRuns.CursorForward: UIDs behave as section 2.3.1.1 of RFC 3501 asks, so new mail gets larger UIDs and a new validity is larger than the old.
- MailboxPoll: the digest, the repair of contact dates, draft pushing and notifications are left out.
- Outbox: the fingerprint is the message list itself (hashing is taken to be injective), a receipt is written whole or not at all (a rewriting that fails leaves the old one), and calls do not overlap; finding fenced blocks and choosing among the candidates is left out.
- BrightReachRuns.SoundOverRuns: identifiers are fresh when made; lines of the ledger file that cannot be parsed, the wording of responses and the status `declined`, which nothing sets, are left out.
- Ticker.AtMostOncePerSlot: a run is created at the ticker's current time and the query for runs is exact; two tickers at once are left out.
- Ticker.FindSlotEmailAlerts: the local clock is taken to pass every alert hour once, as Chicago's does; changes at other hours are free.

Not modelled because it would only add easy members or has no logic of its own:

- Health alerts, revenue reports and dashboards of the text-back product.
- Classification and filtering of mail by pattern.
- Owner pings, whose exactly-once delivery the code does not promise.
- The Cloudflare worker, n8n workflow generation, Discord, research, job and lead-generation agents.
