/**
  The receptionist's dialogue: the session it keeps between turns, the reference
  functions `Next` and `ReplyTo` that say what one call of `process_input` does to the
  session and answers, and the class `Receptionist` whose methods update the session in
  place and are proved to follow them.

  A reply is described by a `Reply` value: a fixed text, the first-aid advice for a
  described emergency, the answer on a topic, or the decision on an appointment request.
  `Words` writes out the words of a reply.
 */
module Dialogue {
  import opened Options
  import opened Text
  import Catalog
  import Appt = Appointment

  /** The dialogue states. `Location` is declared but nothing ever enters it. */
  datatype State = Initial | Emergency | Message | Location | Appointment | GeneralQuestion | Final

  /** What the receptionist remembers between turns. */
  datatype Session = Session(state: State, emergencyType: Option<string>, location: Option<string>,
                             message: Option<string>)

  /** The session after `reset`. */
  const Fresh: Session := Session(Initial, None, None, None)

  // ---------------------------------------------------------------------------
  // Vocabulary and replies
  // ---------------------------------------------------------------------------

  const Greetings: seq<string> := ["hi", "hello", "hey", "greetings"]
  const Thanks: seq<string> := ["thank you", "thanks", "appreciate it", "ok"]
  const Apologies: seq<string> := ["sorry", "apologies", "my bad"]

  /** The replies whose words never vary. */
  datatype Prompt =
    | Menu | ThanksAck | ApologyAck
    | EmergencyPrompt | MessagePrompt | AppointmentPrompt | NotUnderstood
    | MessageTaken
    | FinalAppointmentPrompt | FinalMessagePrompt | HowElse | Closing
    | Rephrase

  /** A reply: fixed words, first-aid advice for a described emergency (with the category
      detected in it, if any), the answer on a topic (with the closing question when it
      ends a general question), or the decision on an appointment request. */
  datatype Reply =
    | Fixed(prompt: Prompt)
    | Advice(emergencyType: string, category: Option<Catalog.CategoryIndex>)
    | Answer(topic: Option<Catalog.TopicIndex>, followUp: bool)
    | Scheduling(decision: Appt.Decision)

  const MenuWords: string :=
    "Hello! How can I assist you today? Are you having an emergency, would you like to leave a message, schedule an appointment, or do you have a general medical question?"
  const ThanksWords: string := "Great! Is there anything else I can help you with?"
  const ApologyWords: string := "No need to apologize. How can I assist you today?"
  const EmergencyPromptWords: string :=
    "I understand this is an emergency. Can you please tell me what the specific emergency is?"
  const MessagePromptWords: string :=
    "Certainly, I can take a message for Dr. Adrin. What message would you like to leave?"
  const AppointmentPromptWords: string :=
    "I'd be happy to help you schedule an appointment. Please provide the date and time you'd like, in the format 'Day Time AM/PM Month Date Year'. For example, 'Friday 3:30 PM September 6 2024'."
  const NotUnderstoodWords: string :=
    "I'm sorry, I didn't understand that. Are you having an emergency, would you like to leave a message, schedule an appointment, or do you have a general medical question?"
  const MessageTakenWords: string :=
    "Thanks for the message. We will forward it to Dr. Adrin. Is there anything else I can help you with?"
  const FinalAppointmentPromptWords: string :=
    "Certainly! I'd be happy to help you schedule an appointment. Please provide the date and time you'd like, in the format 'Day Time AM/PM Month Date Year'. For example, 'Friday 3:30 PM September 6 2024'."
  const FinalMessagePromptWords: string :=
    "Of course, I can take a message for Dr. Adrin. What message would you like to leave?"
  const HowElseWords: string :=
    "How else can I assist you today? Do you need emergency help, want to leave a message, schedule an appointment, or have a general medical question?"
  const ClosingWords: string :=
    "Is there anything else I can help you with? If not, please don't hesitate to reach out if you need further assistance."
  const RephraseWords: string := "I'm sorry, I don't understand that. Could you please rephrase your request?"

  /** The words of each fixed reply. */
  function Say(p: Prompt): string {
    match p
    case Menu => MenuWords
    case ThanksAck => ThanksWords
    case ApologyAck => ApologyWords
    case EmergencyPrompt => EmergencyPromptWords
    case MessagePrompt => MessagePromptWords
    case AppointmentPrompt => AppointmentPromptWords
    case NotUnderstood => NotUnderstoodWords
    case MessageTaken => MessageTakenWords
    case FinalAppointmentPrompt => FinalAppointmentPromptWords
    case FinalMessagePrompt => FinalMessagePromptWords
    case HowElse => HowElseWords
    case Closing => ClosingWords
    case Rephrase => RephraseWords
  }

  const AnythingElse: string := "\n\nIs there anything else I can help you with?"

  /** The reply to a described emergency: the description, the steps one per line, and the
      closing question. */
  function AdviceText(emergencyType: string, steps: seq<string>): string {
    "I understand you're experiencing " + emergencyType + ". Here's what you should do:\n\n"
      + Join(steps, "\n") + AnythingElse
  }

  /** The words of a reply. */
  function Words(reply: Reply): string {
    match reply
    case Fixed(p) => Say(p)
    case Advice(t, category) => AdviceText(t, Catalog.StepsFor(category))
    case Answer(topic, followUp) => Catalog.AnswerFor(topic) + (if followUp then AnythingElse else "")
    case Scheduling(d) => Appt.DecisionReply(d)
  }

  // ---------------------------------------------------------------------------
  // One turn
  // ---------------------------------------------------------------------------

  /** A text as the dialogue reads it: no capital letters, no whitespace at either end. */
  predicate Normalized(t: string) {
    && (forall i :: 0 <= i < |t| ==> !('A' <= t[i] <= 'Z'))
    && (t == [] || (!IsSpace(t[0]) && !IsSpace(t[|t| - 1])))
  }

  /** The input as the dialogue reads it: `user_input.strip().lower()`. */
  function Normalize(raw: string): (t: string)
    ensures |t| <= |raw| && Normalized(t)
  {
    var r := Strip(raw);
    LowerStripped(r);
    Lower(r)
  }

  /** A stripped text, lower-cased, is normalized. */
  lemma LowerStripped(r: string)
    requires r == [] || (!IsSpace(r[0]) && !IsSpace(r[|r| - 1]))
    ensures Normalized(Lower(r))
  {
    LowerPointwise(r);
    if r != [] {
      LowerCharSpace(r[0]);
      LowerCharSpace(r[|r| - 1]);
    }
  }

  /** Normalizing a normalized text changes nothing. */
  lemma NormalizeNormalized(t: string)
    requires Normalized(t)
    ensures Normalize(t) == t
  {
    StripTrimmed(t);
    LowerUnchanged(t);
  }

  /** Normalizing twice is normalizing once. */
  lemma NormalizeIdempotent(raw: string)
    ensures Normalize(Normalize(raw)) == Normalize(raw)
  {
    NormalizeNormalized(Normalize(raw));
  }

  /** The input is answered by one of the three checks that run before the state is consulted. */
  predicate PreChecked(t: string) {
    ContainsAny(t, Greetings) || ContainsAny(t, Thanks) || ContainsAny(t, Apologies)
  }

  /** What an input asks for, as the first check of `process_input` that it meets sees it. */
  datatype Intent =
    | Greeting | Gratitude | Apology
    | AskEmergency | AskMessage | AskAppointment | AskTopic
    | AskMore    // "yes" or "another" after a completed request
    | Unmatched  // none of these; a state that waits for an answer takes the input as that answer

  /** The checks of `process_input` in their order: greetings, thanks and apologies in every
      state, then the keywords of the initial state (emergency, message, appointment, topic)
      or of the final state (appointment, emergency, message, topic, then "yes" or
      "another"). The other states look for no keyword. */
  function IntentOf(state: State, t: string): Intent {
    if ContainsAny(t, Greetings) then Greeting
    else if ContainsAny(t, Thanks) then Gratitude
    else if ContainsAny(t, Apologies) then Apology
    else if state == Initial then
      if Contains(t, "emergency") then AskEmergency
      else if Contains(t, "message") then AskMessage
      else if Contains(t, "appointment") then AskAppointment
      else if Catalog.MentionsTopic(t) then AskTopic
      else Unmatched
    else if state == Final then
      if Contains(t, "appointment") then AskAppointment
      else if Contains(t, "emergency") then AskEmergency
      else if Contains(t, "message") then AskMessage
      else if Catalog.MentionsTopic(t) then AskTopic
      else if Contains(t, "yes") || Contains(t, "another") then AskMore
      else Unmatched
    else Unmatched
  }

  /** The session after `process_input(raw)`: a greeting resets it, thanks and apologies
      keep it, a keyword moves to its state, and otherwise the state decides. The clock plays
      no part. */
  function Next(s: Session, raw: string): Session {
    var t := Normalize(raw);
    Step(s, t, IntentOf(s.state, t))
  }

  /** The session after an input `t` read as `intent`. */
  function Step(s: Session, t: string, intent: Intent): Session {
    match intent
    case Greeting => Fresh
    case Gratitude => s
    case Apology => s
    case AskEmergency => s.(state := Emergency)
    case AskMessage => s.(state := Message)
    case AskAppointment => s.(state := Appointment)
    case AskTopic => s.(state := GeneralQuestion)
    case AskMore => Fresh
    case Unmatched =>
      match s.state
      case Initial => s
      case Emergency => s.(state := Final, emergencyType := Some(t))
      case Message => s.(state := Final, message := Some(t))
      case Appointment => s.(state := Final)
      case GeneralQuestion => s.(state := Final)
      case Final => Fresh
      case Location => s
  }

  /** The reply of `process_input(raw)` in session `s`, along the same branches as `Next`;
      `now` stands for the clock the appointment check reads. */
  function ReplyTo(s: Session, raw: string, now: Appt.DateTime): Reply {
    var t := Normalize(raw);
    Respond(s.state, t, IntentOf(s.state, t), now)
  }

  /** The reply in state `state` to an input `t` read as `intent`. */
  function Respond(state: State, t: string, intent: Intent, now: Appt.DateTime): Reply {
    match intent
    case Greeting => Fixed(Menu)
    case Gratitude => Fixed(ThanksAck)
    case Apology => Fixed(ApologyAck)
    case AskEmergency => Fixed(EmergencyPrompt)
    case AskMessage => if state == Final then Fixed(FinalMessagePrompt) else Fixed(MessagePrompt)
    case AskAppointment =>
      if state == Final then Fixed(FinalAppointmentPrompt) else Fixed(AppointmentPrompt)
    case AskTopic => Answer(Catalog.FirstTopic(t, 0), false)
    case AskMore => Fixed(HowElse)
    case Unmatched =>
      match state
      case Initial => Fixed(NotUnderstood)
      case Emergency => Advice(t, Catalog.FirstCategory(Lower(t), 0))
      case Message => Fixed(MessageTaken)
      case Appointment => Scheduling(Appt.Decide(t, now))
      case GeneralQuestion => Answer(Catalog.FirstTopic(t, 0), true)
      case Final => Fixed(Closing)
      case Location => Fixed(Rephrase)
  }

  // ---------------------------------------------------------------------------
  // What a turn does
  // ---------------------------------------------------------------------------

  /** A greeting anywhere in the input restarts the dialogue from any state, and saying it
      again changes nothing more. */
  lemma GreetingResets(s: Session, raw: string, now: Appt.DateTime)
    requires ContainsAny(Normalize(raw), Greetings)
    ensures Next(s, raw) == Fresh && ReplyTo(s, raw, now) == Fixed(Menu)
    ensures Next(Next(s, raw), raw) == Next(s, raw)
  {
  }

  /** Thanks and apologies are acknowledged and leave the session as it was. */
  lemma AcknowledgementKeepsSession(s: Session, raw: string, now: Appt.DateTime)
    requires !ContainsAny(Normalize(raw), Greetings)
    requires ContainsAny(Normalize(raw), Thanks) || ContainsAny(Normalize(raw), Apologies)
    ensures Next(s, raw) == s
    ensures ReplyTo(s, raw, now) == Fixed(ThanksAck) <==> ContainsAny(Normalize(raw), Thanks)
    ensures ReplyTo(s, raw, now) == Fixed(ApologyAck) <==> !ContainsAny(Normalize(raw), Thanks)
  {
    var t := Normalize(raw);
    assert IntentOf(s.state, t) == (if ContainsAny(t, Thanks) then Gratitude else Apology);
  }

  /** In the initial state the keywords are tried in the order emergency, message,
      appointment, topic; an input with none of them is unmatched. */
  lemma InitialIntent(t: string)
    requires !PreChecked(t)
    ensures IntentOf(Initial, t) == AskEmergency <==> Contains(t, "emergency")
    ensures IntentOf(Initial, t) == AskMessage <==> !Contains(t, "emergency") && Contains(t, "message")
    ensures IntentOf(Initial, t) == AskAppointment <==>
      !Contains(t, "emergency") && !Contains(t, "message") && Contains(t, "appointment")
    ensures IntentOf(Initial, t) == AskTopic <==>
      !Contains(t, "emergency") && !Contains(t, "message") && !Contains(t, "appointment")
      && Catalog.MentionsTopic(t)
    ensures IntentOf(Initial, t) == Unmatched <==>
      !Contains(t, "emergency") && !Contains(t, "message") && !Contains(t, "appointment")
      && !Catalog.MentionsTopic(t)
  {
  }

  /** After a completed request the keywords are tried in the order appointment, emergency,
      message, topic, then "yes" or "another". */
  lemma FinalIntent(t: string)
    requires !PreChecked(t)
    ensures IntentOf(Final, t) == AskAppointment <==> Contains(t, "appointment")
    ensures IntentOf(Final, t) == AskEmergency <==> !Contains(t, "appointment") && Contains(t, "emergency")
    ensures IntentOf(Final, t) == AskMessage <==>
      !Contains(t, "appointment") && !Contains(t, "emergency") && Contains(t, "message")
    ensures IntentOf(Final, t) == AskTopic <==>
      !Contains(t, "appointment") && !Contains(t, "emergency") && !Contains(t, "message")
      && Catalog.MentionsTopic(t)
    ensures IntentOf(Final, t) == AskMore <==>
      !Contains(t, "appointment") && !Contains(t, "emergency") && !Contains(t, "message")
      && !Catalog.MentionsTopic(t) && (Contains(t, "yes") || Contains(t, "another"))
    ensures IntentOf(Final, t) == Unmatched <==>
      !Contains(t, "appointment") && !Contains(t, "emergency") && !Contains(t, "message")
      && !Catalog.MentionsTopic(t) && !Contains(t, "yes") && !Contains(t, "another")
  {
  }

  /** In the initial state each keyword moves to its state with its prompt, and a topic is
      answered at once; an unmatched input is not understood and changes nothing. Nothing is
      stored. */
  lemma InitialRouting(s: Session, t: string, intent: Intent, now: Appt.DateTime)
    requires s.state == Initial && intent in {AskEmergency, AskMessage, AskAppointment, AskTopic, Unmatched}
    ensures var n, r := Step(s, t, intent), Respond(s.state, t, intent, now);
      && n == s.(state := n.state)
      && (intent == AskEmergency ==> n.state == Emergency && r == Fixed(EmergencyPrompt))
      && (intent == AskMessage ==> n.state == Message && r == Fixed(MessagePrompt))
      && (intent == AskAppointment ==> n.state == Appointment && r == Fixed(AppointmentPrompt))
      && (intent == AskTopic ==> n.state == GeneralQuestion && r == Answer(Catalog.FirstTopic(t, 0), false))
      && (intent == Unmatched ==> n.state == Initial && r == Fixed(NotUnderstood))
  {
  }

  /** After a completed request each keyword moves to its state; the appointment and message
      prompts differ from the initial ones, the emergency prompt does not. Otherwise the
      dialogue restarts, offering more help after "yes" or "another" and closing otherwise. */
  lemma FinalRouting(s: Session, t: string, intent: Intent, now: Appt.DateTime)
    requires s.state == Final && intent in {AskEmergency, AskMessage, AskAppointment, AskTopic, AskMore, Unmatched}
    ensures var n, r := Step(s, t, intent), Respond(s.state, t, intent, now);
      && (intent == AskAppointment ==> n == s.(state := Appointment) && r == Fixed(FinalAppointmentPrompt))
      && (intent == AskEmergency ==> n == s.(state := Emergency) && r == Fixed(EmergencyPrompt))
      && (intent == AskMessage ==> n == s.(state := Message) && r == Fixed(FinalMessagePrompt))
      && (intent == AskTopic ==> n == s.(state := GeneralQuestion) && r == Answer(Catalog.FirstTopic(t, 0), false))
      && (intent == AskMore ==> n == Fresh && r == Fixed(HowElse))
      && (intent == Unmatched ==> n == Fresh && r == Fixed(Closing))
  {
  }

  /** The two ways out of the final state say different things: the offer of more help after
      "yes" or "another" is not the closing text. */
  lemma HowElseIsNotClosing()
    ensures Words(Fixed(HowElse)) != Words(Fixed(Closing))
  {
    assert |HowElseWords| != |ClosingWords|;
  }

  /** A state that waits for one answer takes any input that is not a greeting, thanks or
      an apology as that answer: it looks for no keyword. */
  lemma WaitingTakesAnswer(state: State, t: string)
    requires state in {Emergency, Message, Appointment, GeneralQuestion}
    requires !PreChecked(t)
    ensures IntentOf(state, t) == Unmatched
  {
  }

  /** A state that waits for one answer takes it and moves to `Final`: the emergency
      description and the message are stored as read, the description is classified, the
      appointment request decided and the question answered with the closing question. */
  lemma BranchEndsInFinal(s: Session, t: string, now: Appt.DateTime)
    requires s.state in {Emergency, Message, Appointment, GeneralQuestion}
    ensures var n, r := Step(s, t, Unmatched), Respond(s.state, t, Unmatched, now);
      && n.state == Final
      && n.emergencyType == (if s.state == Emergency then Some(t) else s.emergencyType)
      && n.message == (if s.state == Message then Some(t) else s.message)
      && n.location == s.location
      && (s.state == Emergency ==> r == Advice(t, Catalog.FirstCategory(Lower(t), 0)))
      && (s.state == Message ==> r == Fixed(MessageTaken))
      && (s.state == Appointment ==> r == Scheduling(Appt.Decide(t, now)))
      && (s.state == GeneralQuestion ==> r == Answer(Catalog.FirstTopic(t, 0), true))
  {
  }

  // ---------------------------------------------------------------------------
  // Keywords the first checks shadow
  // ---------------------------------------------------------------------------

  /** A text holding `w`, where `w` holds the `j`-th of `words` at `p`, meets the check on `words`. */
  lemma CaughtBy(t: string, w: string, words: seq<string>, j: nat, p: nat)
    requires Contains(t, w) && j < |words| && p + |words[j]| <= |w|
    requires forall i :: 0 <= i < |words[j]| ==> w[p + i] == words[j][i]
    ensures ContainsAny(t, words)
  {
    assert OccursAt(w, words[j], p);
    ContainsTransitive(t, w, words[j]);
  }

  /** What the first checks catch: a pre-checked input is read as a greeting, thanks or an
      apology, and the topics are tried only after the emergency keyword. */
  lemma IntentAfterChecks(state: State, t: string)
    ensures PreChecked(t) <==> IntentOf(state, t) in {Greeting, Gratitude, Apology}
    ensures IntentOf(state, t) == AskTopic ==> state in {Initial, Final} && !Contains(t, "emergency")
  {
  }

  /** A reply that answers a topic answers the first topic key in the input, either to a topic
      named in the initial or final state, or to the question awaited in the general-question
      state; a reply that gives advice classifies the description awaited in the emergency state. */
  lemma ReplyOrigins(state: State, t: string, intent: Intent, now: Appt.DateTime)
    ensures var r := Respond(state, t, intent, now);
      r.Answer? ==>
        && r.topic == Catalog.FirstTopic(t, 0)
        && (intent == AskTopic || (intent == Unmatched && state == GeneralQuestion))
    ensures var r := Respond(state, t, intent, now);
      r.Advice? ==>
        && r.emergencyType == t && r.category == Catalog.FirstCategory(Lower(t), 0)
        && intent == Unmatched && state == Emergency
  {
  }

  /** "history" holds the greeting "hi" and "books or resources?" the thanks "ok". */
  lemma TopicKeyShadowed(t: string, k: Catalog.TopicIndex)
    requires Contains(t, Catalog.GeneralQuestionKeys[k]) && (k == 2 || k == 5)
    ensures PreChecked(t)
  {
    if k == 2 {
      CaughtBy(t, "history", Greetings, 0, 0);
    } else {
      CaughtBy(t, "books or resources?", Thanks, 3, 2);
    }
  }

  /** The phrases of the not-breathing category other than "can't breathe" hold "hi" or
      "ok"; those of the broken-bone category other than "fracture" hold "ok". */
  lemma CategoryPhraseShadowed(t: string, k: Catalog.CategoryIndex)
    requires Catalog.Detects(k, t)
    requires k == 0 ==> !Contains(t, "can't breathe")
    requires k == 3 ==> !Contains(t, "fracture")
    requires k == 0 || k == 3
    ensures PreChecked(t)
  {
    var phrases := Catalog.EmergencyKeywords[k].1;
    var j :| 0 <= j < |phrases| && Contains(t, phrases[j]);
    if k == 0 {
      if j == 0 {
        CaughtBy(t, "not breathing", Greetings, 0, 9);
      } else if j == 2 {
        CaughtBy(t, "difficulty breathing", Greetings, 0, 16);
      } else {
        CaughtBy(t, "choking", Thanks, 3, 2);
      }
    } else {
      CaughtBy(t, phrases[j], Thanks, 3, 2);
    }
  }

  /** The topic answered, if any, is neither "history" nor "books or resources?", and is the
      emergency topic only in the general-question state. */
  lemma AnsweredTopics(state: State, t: string, now: Appt.DateTime)
    ensures var r := Respond(state, t, IntentOf(state, t), now);
      r.Answer? && r.topic.Some? ==>
        && r.topic.value != 2 && r.topic.value != 5
        && (r.topic.value == 1 ==> state == GeneralQuestion)
  {
    var intent := IntentOf(state, t);
    var r := Respond(state, t, intent, now);
    if r.Answer? && r.topic.Some? {
      ReplyOrigins(state, t, intent, now);
      IntentAfterChecks(state, t);
      var k := r.topic.value;
      if k == 2 || k == 5 {
        TopicKeyShadowed(t, k);
      }
    }
  }

  /** The topics "history" and "books or resources?" are never answered: the checks that run
      first take every input naming them. The emergency topic is answered only to the
      question awaited in the general-question state, since elsewhere the emergency keyword
      is tried before the topics. */
  lemma ShadowedTopics(s: Session, raw: string, now: Appt.DateTime)
    ensures var r := ReplyTo(s, raw, now);
      r.Answer? && r.topic.Some? ==>
        && r.topic.value != 2 && r.topic.value != 5
        && (r.topic.value == 1 ==> s.state == GeneralQuestion)
  {
    AnsweredTopics(s.state, Normalize(raw), now);
  }

  /** The category advised for a normalized description, if it is the not-breathing or the
      broken-bone one, was detected by "can't breathe" or "fracture". */
  lemma AdvisedCategories(state: State, t: string, now: Appt.DateTime)
    requires Normalized(t)
    ensures var r := Respond(state, t, IntentOf(state, t), now);
      && (r.Advice? && r.category == Some(0) ==> Contains(t, "can't breathe"))
      && (r.Advice? && r.category == Some(3) ==> Contains(t, "fracture"))
  {
    var intent := IntentOf(state, t);
    var r := Respond(state, t, intent, now);
    if r.Advice? && r.category.Some? {
      ReplyOrigins(state, t, intent, now);
      IntentAfterChecks(state, t);
      LowerUnchanged(t);
      var k := r.category.value;
      if (k == 0 && !Contains(t, "can't breathe")) || (k == 3 && !Contains(t, "fracture")) {
        CategoryPhraseShadowed(t, k);
      }
    }
  }

  /** The not-breathing category is advised only for a description saying "can't breathe",
      and the broken-bone category only for one saying "fracture". */
  lemma ShadowedCategories(s: Session, raw: string, now: Appt.DateTime)
    ensures var r := ReplyTo(s, raw, now);
      && (r.Advice? && r.category == Some(0) ==> Contains(r.emergencyType, "can't breathe"))
      && (r.Advice? && r.category == Some(3) ==> Contains(r.emergencyType, "fracture"))
  {
    var t := Normalize(raw);
    AdvisedCategories(s.state, t, now);
    ReplyOrigins(s.state, t, IntentOf(s.state, t), now);
  }

  /** An input holding "this", as "this is an emergency" does, holds the greeting "hi": it
      restarts the dialogue instead of being routed, whatever the state. */
  lemma ThisRestarts(s: Session, raw: string, now: Appt.DateTime)
    requires Contains(Normalize(raw), "this")
    ensures Next(s, raw) == Fresh && ReplyTo(s, raw, now) == Fixed(Menu)
  {
    CaughtBy(Normalize(raw), "this", Greetings, 0, 1);
    GreetingResets(s, raw, now);
  }

  // ---------------------------------------------------------------------------
  // Conversations
  // ---------------------------------------------------------------------------

  /** What holds of every session a conversation reaches from a fresh receptionist: the
      location state is never entered and no location is stored, nothing is remembered in the
      initial state, and what is stored was read through `Normalize`. */
  predicate Reachable(s: Session) {
    && s.state != Location
    && s.location.None?
    && (s.state == Initial ==> s.emergencyType.None? && s.message.None?)
    && (s.emergencyType.Some? ==> Normalized(s.emergencyType.value))
    && (s.message.Some? ==> Normalized(s.message.value))
  }

  /** Whatever the input is read as, a reachable session stays reachable, provided what
      would be stored is normalized. */
  lemma StepKeepsReachable(s: Session, t: string, intent: Intent)
    requires Reachable(s) && Normalized(t)
    ensures Reachable(Step(s, t, intent))
  {
  }

  /** One turn keeps a session reachable. */
  lemma NextKeepsReachable(s: Session, raw: string)
    requires Reachable(s)
    ensures Reachable(Next(s, raw))
  {
    var t := Normalize(raw);
    StepKeepsReachable(s, t, IntentOf(s.state, t));
  }

  /** A reachable session is never asked to rephrase: the fallback after the dispatch by
      state is dead. */
  lemma NeverRephrase(s: Session, raw: string, now: Appt.DateTime)
    requires Reachable(s)
    ensures ReplyTo(s, raw, now) != Fixed(Rephrase)
  {
    var t := Normalize(raw);
    RephraseOnlyInLocation(s.state, t, IntentOf(s.state, t), now);
  }

  /** Only the location state asks to rephrase. */
  lemma RephraseOnlyInLocation(state: State, t: string, intent: Intent, now: Appt.DateTime)
    ensures Respond(state, t, intent, now) == Fixed(Rephrase) ==> state == Location
  {
  }

  /** The session after a conversation, one input after the other. */
  function Run(s: Session, inputs: seq<string>): Session
    decreases |inputs|
  {
    if inputs == [] then s else Run(Next(s, inputs[0]), inputs[1..])
  }

  /** Every conversation from a fresh receptionist stays within the reachable sessions. */
  lemma {:induction false} RunKeepsReachable(s: Session, inputs: seq<string>)
    requires Reachable(s)
    ensures Reachable(Run(s, inputs))
    decreases |inputs|
  {
    if inputs != [] {
      NextKeepsReachable(s, inputs[0]);
      RunKeepsReachable(Next(s, inputs[0]), inputs[1..]);
    }
  }

  // ---------------------------------------------------------------------------
  // The receptionist object
  // ---------------------------------------------------------------------------

  /** `AIReceptionist`: the session fields it assigns in place. The tables it rebuilds on
      every reset never change and are the constants of module Catalog. */
  class Receptionist {
    var state: State
    var emergencyType: Option<string>
    var location: Option<string>
    var message: Option<string>

    /** The session the fields hold. */
    function Snapshot(): Session
      reads this
    {
      Session(state, emergencyType, location, message)
    }

    constructor ()
      ensures Snapshot() == Fresh
    {
      state, emergencyType, location, message := Initial, None, None, None;
    }

    /** `reset`: back to the initial state with nothing remembered. */
    method Reset()
      modifies this
      ensures Snapshot() == Fresh
    {
      state := Initial;
      emergencyType := None;
      location := None;
      message := None;
    }

    /** `process_input`: one turn of the dialogue, following `Next` and `ReplyTo`. */
    method ProcessInput(userInput: string, now: Appt.DateTime) returns (reply: Reply)
      modifies this
      ensures Snapshot() == Next(old(Snapshot()), userInput)
      ensures reply == ReplyTo(old(Snapshot()), userInput, now)
    {
      var t := Normalize(userInput);
      reply := Dispatch(t, IntentOf(state, t), now);
    }

    /** The branches of `process_input` once the input `t` has been read as `intent`. */
    method Dispatch(t: string, intent: Intent, now: Appt.DateTime) returns (reply: Reply)
      modifies this
      ensures Snapshot() == Step(old(Snapshot()), t, intent)
      ensures reply == Respond(old(state), t, intent, now)
    {
      match intent
      case Greeting =>
        Reset();
        reply := Fixed(Menu);
      case Gratitude =>
        reply := Fixed(ThanksAck);
      case Apology =>
        reply := Fixed(ApologyAck);
      case AskEmergency =>
        state := Emergency;
        reply := Fixed(EmergencyPrompt);
      case AskMessage =>
        reply := if state == Final then Fixed(FinalMessagePrompt) else Fixed(MessagePrompt);
        state := Message;
      case AskAppointment =>
        reply := if state == Final then Fixed(FinalAppointmentPrompt) else Fixed(AppointmentPrompt);
        state := Appointment;
      case AskTopic =>
        state := GeneralQuestion;
        var topic := Catalog.FindTopic(t);
        reply := Answer(topic, false);
      case AskMore =>
        Reset();
        reply := Fixed(HowElse);
      case Unmatched =>
        if state == Initial {
          reply := Fixed(NotUnderstood);
        } else if state == Emergency {
          emergencyType := Some(t);
          var category := Catalog.FindCategory(Lower(t));
          state := Final;
          reply := Advice(t, category);
        } else if state == Message {
          message := Some(t);
          state := Final;
          reply := Fixed(MessageTaken);
        } else if state == Appointment {
          var decision := Appt.Decide(t, now);
          state := Final;
          reply := Scheduling(decision);
        } else if state == GeneralQuestion {
          var topic := Catalog.FindTopic(t);
          state := Final;
          reply := Answer(topic, true);
        } else if state == Final {
          Reset();
          reply := Fixed(Closing);
        } else {
          reply := Fixed(Rephrase);
        }
    }
  }
}
