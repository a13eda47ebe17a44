# AI receptionist for Dr. Adrin's practice — a Dafny model

The receptionist holds a short dialogue with a patient. Each call of
`process_input` does the following:

- It lower-cases the input and strips whitespace from both ends.
- It answers greetings, thanks and apologies, whatever state the dialogue is in.
- Otherwise it routes on keywords (emergency, message, appointment, or a
  general-question topic) and moves into the state that waits for the matching
  answer.
- The next input is taken as that answer:
  - an emergency description, which is classified into first-aid steps;
  - a message, which is stored;
  - an appointment request, which is parsed with
    `strptime("%A %I:%M %p %B %d %Y")` and checked against the clock and the
    office hours;
  - a general question, which is answered from a table.
- After that the dialogue is in its final state. From there a new keyword starts
  another request, and anything else restarts the dialogue.

## Modules

- `Options` holds the `Option` datatype.
- `Text` models Python's `str.strip()` (the whole `str.isspace` set),
  `str.lower()` on ASCII letters, the substring test `w in s`, `any(...)` over a
  list of words, `sep.join` and splitting on one character.
- `Calendar` models the proleptic Gregorian calendar of `datetime`: valid dates,
  day numbers, weekdays, and the English day and month names.
- `Catalog` holds:
  - `emergency_keywords`, with `emergency_responses` indexed by the same category
    positions;
  - `general_questions`;
  - the first-match classifiers `get_emergency_response` and
    `handle_general_question`. Each is a specification function plus a method
    with the source's loop, proved equal to it.
- `Appointment` models `process_appointment_request`:
  - a parser for the documented request shape;
  - the decision (unreadable, in the past, outside office hours, booked);
  - the reply texts.

  It proves that writing a request in the documented shape and parsing it back
  gives the request, and it proves the boundary cases of the office hours.
- `Dialogue` holds the following:
  - the `Session` datatype, which holds the four fields `reset` assigns;
  - the classification `IntentOf` of an input;
  - the reference functions `Next` and `ReplyTo`, which give the session and the
    reply after one call of `process_input`;
  - the class `Receptionist`, whose `ProcessInput` updates its fields in place
    and is proved to follow `Next` and `ReplyTo`.

  Both emergency prompts are the same text (app.py:160 and app.py:200). Only the
  appointment and message prompts differ between the initial and final states.

  The lemmas state the routing in each state, and they prove the following:
  - The session invariant is kept by every conversation.
  - The "rephrase" fallback is dead.
  - The greeting and thanks checks shadow several keywords, because every
    check is a substring test:
    - "hi" occurs in "history", "this", "not breathing" and "difficulty breathing";
    - "ok" occurs in "books or resources?", "choking" and "broken …".

## Model

| member | source | states |
|---|---|---|
| Text.IsSpace | app.py:139 | no contract; defines the characters for which `str.isspace()` holds, which `strip()` removes |
| Text.StripStart | app.py:139 | the result is a suffix of the input; everything cut is whitespace; the result does not start with whitespace |
| Text.StripEnd | app.py:139 | the result is a prefix of the input; everything cut is whitespace; the result does not end with whitespace |
| Text.Strip | app.py:139 | `strip()` is no longer than its input and has no whitespace at either end |
| Text.StripTrimmed | app.py:139 | a text with no whitespace at either end is its own strip |
| Text.LowerChar | app.py:139 | a character changes exactly when it is an ASCII capital, which moves to its small letter; no capital is left |
| Text.LowerCharSpace | app.py:139 | lower-casing neither creates nor removes whitespace |
| Text.LowerPointwise | app.py:139 | `lower()` keeps the length and lower-cases position by position |
| Text.LowerLower | app.py:139 | lower-casing is idempotent |
| Text.LowerUnchanged | app.py:139 | a text without capitals is its own lower-case form |
| Text.ContainsTransitive | app.py:143 | a text containing `m` contains every substring of `m` (how one keyword hides another) |
| Text.Split | app.py:122 | splitting gives at least one part, and no part holds the separator |
| Text.JoinSplit | app.py:122 | joining the parts of a split with the separator gives back the text |
| Text.SplitJoin | app.py:122 | splitting separator-free parts joined with the separator gives back the parts |
| Calendar.DaysInMonth | app.py:122 | months have 28 to 31 days; February has 29 exactly in leap years; April, June, September and November have 30 |
| Calendar.Weekday | app.py:129 | `weekday()` is between 0 (Monday) and 6 (Sunday) |
| Calendar.WeekdayName | app.py:133 | no contract; defines the day name `strftime` writes for %A |
| Calendar.MonthName | app.py:133 | no contract; defines the month name `strftime` writes for %B |
| Calendar.ExampleIsFriday | app.py:136 | 6 September 2024, the date of the help text's example, is a Friday (weekday 4): the numbering matches the real calendar |
| Calendar.DaysInYear | app.py:129 | a year has 366 days if it is a leap year and 365 otherwise |
| Calendar.OrdinalNextDay | app.py:129 | the day after a valid date is valid and numbered one more, across month and year ends |
| Calendar.WeekdayNextDay | app.py:129 | the weekday of the next day is the next weekday, Sunday wrapping to Monday |
| Calendar.KeysAreWords | app.py:122 | the 7 day names and 12 month names are distinct words of small letters |
| Calendar.NamesLowerToKeys | app.py:133 | each name `strftime` writes lower-cases to the key `strptime` matches |
| Calendar.KeysHaveNoSpace | app.py:122 | no day or month name holds a space |
| Appointment.AsDateTime | app.py:122 | no contract; defines the `datetime` that `strptime` builds from a request, with zero seconds and microseconds; Decide, PastCheckedFirst and NineAmIsBooked state what it means for the past check |
| Appointment.To24 | app.py:122 | %I with %p gives an hour 0..23; the hour is 12 or more exactly for PM; it agrees with the 12-hour reading modulo 12 |
| Appointment.Hour12 | app.py:133 | %I gives an hour 1..12, and converting back with the AM/PM of the hour restores it |
| Appointment.To24Hour12 | app.py:122-133 | the 12-hour and 24-hour clocks are inverse to each other |
| Appointment.Decimal | app.py:133 | the digits denote the number; there is one digit below 10, at most two below 100 and at most four below 10000 |
| Appointment.DigitsValue | app.py:122 | no contract; defines `int()` of the matched digits |
| Appointment.LeadingZeros | app.py:122 | leading zeros do not change the value read |
| Appointment.Padded | app.py:133 | zero-padding keeps the value, and its width is the requested width or the number's own |
| Appointment.Number | app.py:122 | no contract; defines reading a token of `lo` to `hi` digits as its value; NumbersReadBack and ParseRender state that every number the request shape writes reads back as itself |
| Appointment.NameIndex | app.py:122 | the name lookup finds the first equal key, and finds none only when no key is equal |
| Appointment.Meridiem | app.py:122 | no contract; defines %p on lower-cased input; LowerMeridiem and ParseRender state that the AM/PM that `strftime` writes reads back as the half of the day it came from |
| Appointment.MeridiemName | app.py:133 | no contract; defines %p as `strftime` writes it, "AM" or "PM" |
| Appointment.Render | app.py:136 | no contract; defines a request written in the documented shape, such as "Friday 3:30 PM September 6 2024"; ParseRender states that it parses back |
| Appointment.ParseTokens | app.py:122 | every request read from six tokens names a valid date and time |
| Appointment.Parse | app.py:122 | every request `strptime` reads names a valid date and time |
| Appointment.ParseRender | app.py:122 | a valid request written in the documented shape parses back to itself, before or after lower-casing |
| Appointment.Decide | app.py:120-136 | unreadable exactly when parsing fails; in the past exactly when the moment is before `now`; outside hours exactly when it is not in the past and not Monday to Friday 9:00-16:59; otherwise booked at the parsed moment |
| Appointment.PastCheckedFirst | app.py:125-126 | a request before `now` is refused as past, even outside office hours |
| Appointment.NineAmIsBooked | app.py:129 | 9:00 AM on a weekday, not in the past, is booked |
| Appointment.FivePmIsOutsideHours | app.py:129-130 | any time from 5:00 PM on is outside office hours |
| Appointment.WeekendIsOutsideHours | app.py:129-130 | Saturdays and Sundays are outside office hours at any hour |
| Appointment.ProcessAppointmentRequest | app.py:120-136 | the reply is the format help, the past refusal, the hours refusal, or the confirmation of the booked moment, following the decision |
| Catalog.EmergencySteps | app.py:26-68 | each category has its six steps (seven for an allergic reaction) |
| Catalog.StepsFor | app.py:115-118 | no contract; defines the steps of a detected category, or the caution steps |
| Catalog.FirstCategory | app.py:113-115 | the category found detects the text, and no earlier one does; none is found only when no category detects it |
| Catalog.EmergencyResponseFirstMatch | app.py:112-115 | the steps returned are those of the first category, in table order, whose phrases occur in the lower-cased description |
| Catalog.EmergencyResponseFallback | app.py:116-118 | with no category detected, the three caution steps are returned |
| Catalog.EmergencyResponseNonEmpty | app.py:112-118 | the steps returned are never fewer than three |
| Catalog.FindCategory | app.py:113-115 | the loop over the categories returns the first one that detects the text |
| Catalog.GetEmergencyResponse | app.py:112-118 | `get_emergency_response` returns the steps of the first category detected in the lower-cased description, or the caution steps |
| Catalog.MentionsTopic | app.py:167 | no contract; defines "some key of `general_questions` occurs in the input", the test at app.py:167 and app.py:204; FirstTopicFound ties it to the lookup |
| Catalog.AnswerFor | app.py:219-220 | no contract; defines the answer on a found topic, its lines joined by newlines, or the deferral text |
| Catalog.FirstTopic | app.py:217-218 | the topic found has its key in the text, and no earlier key occurs; none is found only when no key occurs |
| Catalog.FirstTopicFound | app.py:167 | the routing test "some topic key occurs" holds exactly when a topic is found |
| Catalog.GeneralAnswerFirstMatch | app.py:216-219 | the answer is the lines of the first topic, in table order, whose key occurs in the question, joined by newlines |
| Catalog.GeneralAnswerFallback | app.py:220 | with no topic key in the question, the deferral text is returned |
| Catalog.FindTopic | app.py:217-218 | the loop over the topic keys returns the first one that occurs in the text |
| Catalog.HandleGeneralQuestion | app.py:216-220 | `handle_general_question` returns the answer on the first topic mentioned, or the deferral text |
| Dialogue.Say | app.py:145-214 | no contract; defines the words of each fixed reply, verbatim |
| Dialogue.PreChecked | app.py:141-155 | no contract; defines "the input holds a greeting, thanks or an apology word", the three checks run before the state is read |
| Dialogue.Normalize | app.py:139 | the normalized input is no longer than the raw input, has no capitals and has no whitespace at either end |
| Dialogue.LowerStripped | app.py:139 | lower-casing a stripped text leaves it normalized |
| Dialogue.NormalizeNormalized | app.py:139 | a normalized text is its own normalization |
| Dialogue.NormalizeIdempotent | app.py:139 | normalizing twice is normalizing once |
| Dialogue.GreetingResets | app.py:141-145 | a greeting in any state resets the session and answers the menu; repeating it changes nothing more |
| Dialogue.AcknowledgementKeepsSession | app.py:147-155 | thanks and apologies, without a greeting, leave the session unchanged; thanks are acknowledged exactly when they occur, otherwise the apology is |
| Dialogue.IntentAfterChecks | app.py:141-167 | an input is taken by the greeting, thanks or apology checks exactly when it contains one of their words; a topic is chosen only in the initial or final state, and only without "emergency" |
| Dialogue.InitialIntent | app.py:157-171 | in the initial state the input is read as emergency, message, appointment or topic, in that order of priority, and as unmatched exactly when none occurs |
| Dialogue.FinalIntent | app.py:194-212 | in the final state the order is appointment, emergency, message, topic, then "yes"/"another", and the input is unmatched exactly when none occurs |
| Dialogue.InitialRouting | app.py:157-171 | in the initial state each keyword moves to its state with its prompt, and a topic moves to the general-question state and is answered at once without the closing question; an unmatched input changes nothing and is not understood; nothing is stored |
| Dialogue.FinalRouting | app.py:194-212 | in the final state each keyword moves to its state, with the final-state prompts for appointment and message; "yes"/"another" restart and offer more help; anything else restarts and closes |
| Dialogue.HowElseIsNotClosing | app.py:207-212 | the reply after "yes" or "another" and the closing reply are different texts |
| Dialogue.WaitingTakesAnswer | app.py:173-192 | the four waiting states look for no keyword: any input the first checks do not take is their answer |
| Dialogue.BranchEndsInFinal | app.py:173-192 | each waiting state moves to the final state; the emergency description and the message are stored as read and nothing else changes; the reply is the advice for the description, the message acknowledgement, the appointment decision, or the answer with the closing question |
| Dialogue.ReplyOrigins | app.py:167-192 | a topic answer answers the first topic key of the input, and comes only from topic routing or the general-question state; advice classifies exactly the stored description, and comes only from the emergency state |
| Dialogue.TopicKeyShadowed | app.py:141-150 | an input naming "history" contains "hi", and one naming "books or resources?" contains "ok" |
| Dialogue.CategoryPhraseShadowed | app.py:69-75 | every not-breathing phrase except "can't breathe" holds "hi" or "ok", and every broken-bone phrase except "fracture" holds "ok" |
| Dialogue.AnsweredTopics | app.py:141-169 | the topic answered in a state is never "history" nor "books or resources?", and is "emergency" only in the general-question state |
| Dialogue.ShadowedTopics | app.py:216-220 | one turn never answers the "history" or "books or resources?" topic, and answers the "emergency" topic only to an awaited question |
| Dialogue.AdvisedCategories | app.py:173-177 | for a normalized description, the not-breathing advice requires "can't breathe" and the broken-bone advice requires "fracture" |
| Dialogue.ShadowedCategories | app.py:112-118 | one turn advises for not breathing only on "can't breathe", and for a broken bone only on "fracture" |
| Dialogue.CaughtBy | app.py:143 | a text containing a word that holds one of the checked words is caught by the check |
| Dialogue.ThisRestarts | app.py:141-145 | any input containing "this", such as "this is an emergency", restarts the dialogue with the menu in every state |
| Dialogue.StepKeepsReachable | app.py:138-214 | every branch keeps the session invariant: the location state is never entered, no location is stored, nothing is remembered in the initial state, and stored texts are normalized |
| Dialogue.NextKeepsReachable | app.py:138-214 | one turn keeps the session invariant |
| Dialogue.RunKeepsReachable | app.py:138-214 | every conversation from a reachable session keeps the session invariant |
| Dialogue.RephraseOnlyInLocation | app.py:214 | only the location state falls through to the rephrase reply |
| Dialogue.NeverRephrase | app.py:214 | a reachable session is never answered with the rephrase reply |
| Text.Lower | app.py:139 | no contract beyond keeping the length; defines `str.lower()` on ASCII capitals, character by character |
| Text.Contains | app.py:143 | no contract; defines Python's substring test `w in s` as an occurrence at some position |
| Text.ContainsAny | app.py:143 | no contract; defines `any(w in s for w in words)` |
| Text.Join | app.py:219 | no contract; defines `sep.join(parts)` |
| Calendar.IsLeapYear | app.py:122 | no contract; defines the Gregorian leap-year rule |
| Calendar.ValidDate | app.py:122 | no contract; defines the dates `datetime` accepts: years 1 to 9999 and a day that exists in its month |
| Calendar.Ordinal | app.py:129 | no contract; defines `toordinal()`, with 1 January of year 1 as day 1 |
| Appointment.Before | app.py:125 | no contract; defines `<` on datetimes, field by field from the year down |
| Appointment.InOfficeHours | app.py:129 | no contract; defines the office hours: Monday to Friday, hour 9 up to but excluding 17 |
| Appointment.Formatted | app.py:133 | no contract; defines `strftime('%A, %B %d, %Y at %I:%M %p')` |
| Appointment.Confirmation | app.py:133 | no contract; defines the confirmation sentence around the formatted moment |
| Appointment.DecisionReply | app.py:125-136 | no contract; defines the reply text of each decision |
| Catalog.StepLine | app.py:26-68 | no contract; defines the lines of `emergency_responses`, category by category, verbatim |
| Catalog.TopicLines | app.py:76-110 | no contract; defines the answer lines of `general_questions`, topic by topic, verbatim |
| Catalog.Detects | app.py:69-75 | no contract; defines "some phrase of category `k` of `emergency_keywords` occurs in the text" |
| Catalog.EmergencyResponse | app.py:112-118 | no contract; defines what `get_emergency_response` returns; GetEmergencyResponse and the EmergencyResponse lemmas state its properties |
| Catalog.GeneralAnswer | app.py:216-220 | no contract; defines what `handle_general_question` returns; HandleGeneralQuestion and the GeneralAnswer lemmas state its properties |
| Dialogue.IntentOf | app.py:141-212 | no contract; defines which check of `process_input` an input meets first, by state; InitialIntent, FinalIntent and IntentAfterChecks state its properties |
| Dialogue.Step | app.py:141-212 | no contract; defines the session after an input read as an intent |
| Dialogue.Respond | app.py:141-214 | no contract; defines the reply to an input read as an intent |
| Dialogue.Next | app.py:139-214 | no contract; defines the session after `process_input`, as Step of the normalized input and its intent |
| Dialogue.ReplyTo | app.py:139-214 | no contract; defines the reply of `process_input`, as Respond of the normalized input and its intent |
| Dialogue.AdviceText | app.py:177 | no contract; defines the emergency advice text: the description, the steps one per line, and the closing question |
| Dialogue.Words | app.py:145-212 | no contract; defines the text of each reply, with the closing question after an awaited answer (app.py:192) |
| Dialogue.Reachable | app.py:20-25 | no contract; defines the session invariant that StepKeepsReachable and RunKeepsReachable prove |
| Dialogue.Run | app.py:138-214 | no contract; defines the session after a sequence of `process_input` calls |
| Dialogue.Receptionist.constructor | app.py:17-18 | a new receptionist starts in the fresh session |
| Dialogue.Receptionist.Reset | app.py:20-25 | `reset` returns to the initial state with no emergency type, location or message |
| Dialogue.Receptionist.ProcessInput | app.py:138-214 | the new fields are `Next` of the old session and the input, and the reply is `ReplyTo` of them |
| Dialogue.Receptionist.Dispatch | app.py:141-212 | once the input is classified, each branch updates the fields as `Step` says and replies as `Respond` says |

## Left out

- `main` (app.py:222-259) is left out. It is the Streamlit page: widgets, chat history and the session store.
- The `database_thread` field, and the `time`, `random` and `threading` imports, are left out. Nothing in the receptionist's core uses them.
- `datetime.now()` is not modelled as a clock. The current moment is the parameter `now` of `ProcessInput`, `Decide` and `ProcessAppointmentRequest`.
- Text.LowerChar: lowers ASCII capitals only. Python's `str.lower()` also lower-cases non-ASCII letters and can change a string's length. The gap shows on the keyword checks: some non-ASCII capitals lower-case to ASCII letters that complete a keyword. The Kelvin sign U+212A lowers to "k", so Python thanks "oK" typed with it (app.py:148), while the model reads it as unmatched. "İ" lowers to "i̇", so Python greets "HİSTORY" (app.py:142), while the model does not.
- Text.LowerPointwise: rests on Text.LowerChar, so it states the ASCII-only lowering, which keeps the length.
- Text.Lower: rests on Text.LowerChar; it keeps the length, where Python's `str.lower()` may not.
- Dialogue.Normalize: rests on Text.Lower, so a keyword completed only by a non-ASCII letter's lower-case form is missed.
- Appointment.Parse: reads the fields only when they are separated by one space each and written with ASCII digits. `strptime` also accepts other whitespace between fields (several spaces, a tab, a no-break space), and Unicode decimal digits matched by `\d` in %M, %d and %Y; for example, "friday 3:30 pm september 6 ٢٠٢٤" reads as 2024. The model answers these with the format help.
- Appointment.Formatted: writes `%Y` without padding, as glibc's `strftime` does. Years below 1000 are therefore not zero-padded in the confirmation.
- Dialogue.Receptionist.ProcessInput: returns a `Reply` value rather than the reply string. `Dialogue.Words` writes out its words. The emergency advice, the topic answer and the appointment decision are kept symbolic, so the round trips are proved on values rather than on prose.
- The dicts `emergency_responses`, `emergency_keywords` and `general_questions` are rebuilt by every `reset` but never changed. They are constants of `Catalog`. Their keys are lists in dict order, and their values are functions of the key's position.
- The `location` field and the `LOCATION` state are declared in the source. Nothing enters the state, and the field is never assigned anything but None (by `reset`, app.py:23). The model keeps both, and `Reachable` proves they stay unused.
