/**
  The intent classifier: the emergency tables (detection phrases per category, and the
  first-aid steps per category) and the general-question table. The two Python dicts that
  are iterated keep their insertion order: the keys are modelled as a list in that order, and
  the values as a function of the position of their key in it. `emergency_responses` is only
  looked up with the category names of `emergency_keywords`, so its values are a function of
  the same positions.
 */
module Catalog {
  import opened Options
  import opened Text

  /** `emergency_keywords`: each category with its detection phrases, in dict order. */
  const EmergencyKeywords: seq<(string, seq<string>)> := [
    ("not breathing", ["not breathing", "can't breathe", "difficulty breathing", "choking"]),
    ("chest pain", ["chest pain", "heart attack", "cardiac arrest"]),
    ("severe bleeding", ["bleeding", "blood loss", "hemorrhage"]),
    ("broken bone", ["broken bone", "fracture", "broken arm", "broken leg"]),
    ("allergic reaction", ["allergic reaction", "anaphylaxis", "allergy attack"])
  ]

  /** The number of steps `emergency_responses` lists for category `k`. */
  function StepCount(k: CategoryIndex): nat {
    [6, 6, 6, 6, 7][k]
  }

  /** `emergency_responses`: the steps for category `k`, which that dict files under the
      category's name `EmergencyKeywords[k].0`, one `StepLine` after the other. */
  function EmergencySteps(k: CategoryIndex): (steps: seq<string>)
    ensures |steps| == StepCount(k)
  {
    seq(StepCount(k), i requires 0 <= i < StepCount(k) => StepLine(k, i))
  }

  /** Step `i` of category `k`. */
  function StepLine(k: CategoryIndex, i: nat): string
    requires i < StepCount(k)
  {
    if k == 0 then  // not breathing
      if i == 0 then "Call emergency services immediately."
      else if i == 1 then "Begin CPR if you're trained:"
      else if i == 2 then "- Place hands on the center of the chest"
      else if i == 3 then "- Push hard and fast at a rate of 100-120 compressions per minute"
      else if i == 4 then "- Allow the chest to fully recoil between compressions"
      else "Continue until emergency services arrive"
    else if k == 1 then  // chest pain
      if i == 0 then "Call emergency services immediately."
      else if i == 1 then "Help the person sit down and rest in a comfortable position."
      else if i == 2 then "If the person takes nitroglycerin, help them take it."
      else if i == 3 then "If aspirin is readily available and the person isn't allergic, have them chew a baby aspirin."
      else if i == 4 then "Loosen any tight clothing."
      else "Stay with the person until emergency services arrive."
    else if k == 2 then  // severe bleeding
      if i == 0 then "Call emergency services immediately."
      else if i == 1 then "Apply direct pressure to the wound using a clean cloth or sterile bandage."
      else if i == 2 then "If possible, elevate the injured area above the heart."
      else if i == 3 then "Do not remove the cloth or bandage if it becomes soaked; add more on top."
      else if i == 4 then "If bleeding is from an arm or leg, and not controlled, apply pressure to the appropriate artery."
      else "Stay with the person until emergency services arrive."
    else if k == 3 then  // broken bone
      if i == 0 then "Call emergency services for serious fractures."
      else if i == 1 then "Keep the injured area still and supported."
      else if i == 2 then "Apply a cold pack wrapped in a cloth to reduce swelling."
      else if i == 3 then "For an open fracture, cover the wound with a clean cloth or sterile bandage."
      else if i == 4 then "Do not attempt to realign the bone or push a protruding bone back in."
      else "Stay with the person until emergency services arrive."
    else  // allergic reaction
      if i == 0 then "Call emergency services if the reaction is severe."
      else if i == 1 then "Ask if the person has an epinephrine auto-injector (like an EpiPen) and help them use it if necessary."
      else if i == 2 then "Help the person stay calm and lie still on their back with feet elevated."
      else if i == 3 then "Loosen tight clothing and cover them with a blanket."
      else if i == 4 then "Watch for signs of shock."
      else if i == 5 then "If the person is vomiting, turn them on their side to prevent choking."
      else "Stay with the person until emergency services arrive."
  }

  /** The steps given when no category detects the description. */
  const CautionSteps: seq<string> := [
    "Please stay calm and describe your emergency in more detail.",
    "If it's life-threatening, call emergency services immediately.",
    "I'll do my best to provide appropriate guidance based on the information you give me."
  ]

  /** The keys of `general_questions`, in dict order. */
  const GeneralQuestionKeys: seq<string> :=
    ["medication", "emergency", "history", "vision", "talks", "books or resources?"]

  /** `general_questions`: the lines of the answer on topic `k`, which that dict files under
      the topic's key `GeneralQuestionKeys[k]`. */
  function TopicLines(k: TopicIndex): seq<string> {
    if k == 0 then [  // medication
      "Effective medication management is crucial for optimal health outcomes.",
      "Keep all prescribed medications in one place, preferably in a pill box or organizer.",
      "Set reminders for daily doses and track your intake using apps or paper logs.",
      "Always read medication labels carefully and follow dosage instructions precisely.",
      "If you have any questions or concerns about your medication regimen, consult Dr. Adrin during your next visit."]
    else if k == 1 then [  // emergency
      "In case of a medical emergency, prioritize your safety and well-being.",
      "Call emergency services immediately if you haven't already.",
      "Provide them with as much information as possible about your condition and location.",
      "Follow any instructions given by emergency responders, including staying on the line until help arrives."]
    else if k == 2 then [  // history
      "If you have questions about your medical history, it's best to consult with Dr. Adrin directly.",
      "During your next appointment, bring a list of your past diagnoses, treatments, and any ongoing conditions.",
      "This information will help Dr. Adrin provide more accurate and effective care."]
    else if k == 3 then [  // vision
      "Vision health is crucial for quality of life and should be monitored regularly.",
      "Schedule an eye exam with Dr. Adrin to address any specific concerns or for regular check-ups.",
      "Practice good eye care by getting enough sleep, reducing screen time, and wearing protective eyewear when necessary."]
    else if k == 4 then [  // talks
      "TED Talks often feature insightful discussions on various health topics.",
      "Some popular health-related TED Talks include 'Your body language shapes who you are,' 'Grit: The power of passion and perseverance,' and 'How to spot a liar.'",
      "While these talks can be thought-provoking, always consult with healthcare professionals for personalized advice."]
    else [  // books or resources?
      "While I can suggest popular health-related books and resources, always verify the credibility of sources.",
      "Some recommended books include 'Why Zebras Don't Get Ulcers' by Robert Sapolsky and 'The Blue Zones' by Dan Buettner.",
      "For current and reliable health information, consult reputable websites like Mayo Clinic or the CDC."]
  }

  /** The answer when no topic key occurs in the question. */
  const NoInformation: string :=
    "I'm sorry, I couldn't find specific information about that. It's best to discuss this with Dr. Adrin during your next appointment. Is there anything else I can help you with?"

  // ---------------------------------------------------------------------------
  // Emergency classification
  // ---------------------------------------------------------------------------

  /** The index of a category of the keyword table. */
  type CategoryIndex = k: nat | k < |EmergencyKeywords|

  /** Some detection phrase of category `k` occurs in `text`. */
  predicate Detects(k: nat, text: string)
    requires k < |EmergencyKeywords|
  {
    ContainsAny(text, EmergencyKeywords[k].1)
  }

  /** The first category from index `from` on that detects `text`. */
  function FirstCategory(text: string, from: nat): (r: Option<CategoryIndex>)
    requires from <= |EmergencyKeywords|
    ensures r.Some? ==> from <= r.value < |EmergencyKeywords| && Detects(r.value, text)
    ensures forall j :: from <= j < |EmergencyKeywords| && (r.None? || j < r.value) ==> !Detects(j, text)
    decreases |EmergencyKeywords| - from
  {
    if from == |EmergencyKeywords| then None
    else if Detects(from, text) then Some(from)
    else FirstCategory(text, from + 1)
  }

  /** The steps for a detected category, or the caution steps. */
  function StepsFor(category: Option<CategoryIndex>): seq<string> {
    match category
    case Some(k) => EmergencySteps(k)
    case None => CautionSteps
  }

  /** What `get_emergency_response` returns for a description. */
  function EmergencyResponse(emergencyType: string): seq<string> {
    StepsFor(FirstCategory(Lower(emergencyType), 0))
  }

  /** The category answered is the first one, in table order, that detects the description. */
  lemma EmergencyResponseFirstMatch(emergencyType: string, k: nat)
    requires k < |EmergencyKeywords| && Detects(k, Lower(emergencyType))
    requires forall j :: 0 <= j < k ==> !Detects(j, Lower(emergencyType))
    ensures EmergencyResponse(emergencyType) == EmergencySteps(k)
  {
    var r := FirstCategory(Lower(emergencyType), 0);
    assert r.Some? && r.value == k;
  }

  /** With no category detected, the caution steps are answered. */
  lemma EmergencyResponseFallback(emergencyType: string)
    requires forall j :: 0 <= j < |EmergencyKeywords| ==> !Detects(j, Lower(emergencyType))
    ensures EmergencyResponse(emergencyType) == CautionSteps
  {
  }

  /** `get_emergency_response` never answers an empty list: every category has at least six
      steps, and the fallback three. */
  lemma EmergencyResponseNonEmpty(emergencyType: string)
    ensures |EmergencyResponse(emergencyType)| >= 3
  {
    assert |CautionSteps| == 3;
  }

  /** The loop of `get_emergency_response`: the categories in order, stopping at the first
      whose phrases occur in `text`. */
  method FindCategory(text: string) returns (category: Option<CategoryIndex>)
    ensures category == FirstCategory(text, 0)
  {
    var k := 0;
    while k < |EmergencyKeywords|
      invariant k <= |EmergencyKeywords|
      invariant forall j :: 0 <= j < k ==> !Detects(j, text)
    {
      if Detects(k, text) {
        return Some(k);
      }
      k := k + 1;
    }
    return None;
  }

  /** `get_emergency_response`: the steps of the first category detected in the lower-cased
      description, or the caution steps. */
  method GetEmergencyResponse(emergencyType: string) returns (steps: seq<string>)
    ensures steps == EmergencyResponse(emergencyType)
  {
    var category := FindCategory(Lower(emergencyType));
    steps := StepsFor(category);
  }

  // ---------------------------------------------------------------------------
  // General questions
  // ---------------------------------------------------------------------------

  /** The index of a topic of the general-question table. */
  type TopicIndex = k: nat | k < |GeneralQuestionKeys|

  /** Some topic key occurs in `text`: `any(keyword in user_input for keyword in keys())`. */
  predicate MentionsTopic(text: string) {
    exists k :: 0 <= k < |GeneralQuestionKeys| && Contains(text, GeneralQuestionKeys[k])
  }

  /** The first topic from index `from` on whose key occurs in `text`. */
  function FirstTopic(text: string, from: nat): (r: Option<TopicIndex>)
    requires from <= |GeneralQuestionKeys|
    ensures r.Some? ==> from <= r.value < |GeneralQuestionKeys| && Contains(text, GeneralQuestionKeys[r.value])
    ensures forall j :: from <= j < |GeneralQuestionKeys| && (r.None? || j < r.value) ==>
      !Contains(text, GeneralQuestionKeys[j])
    decreases |GeneralQuestionKeys| - from
  {
    if from == |GeneralQuestionKeys| then None
    else if Contains(text, GeneralQuestionKeys[from]) then Some(from)
    else FirstTopic(text, from + 1)
  }

  /** A topic is found exactly when some topic key occurs in the question. */
  lemma FirstTopicFound(question: string)
    ensures MentionsTopic(question) <==> FirstTopic(question, 0).Some?
  {
    if MentionsTopic(question) {
      var k :| 0 <= k < |GeneralQuestionKeys| && Contains(question, GeneralQuestionKeys[k]);
      assert FirstTopic(question, 0).Some?;
    }
  }

  /** The answer for a found topic, one line after the other, or the deferral text. */
  function AnswerFor(topic: Option<TopicIndex>): string
  {
    match topic
    case Some(k) => Join(TopicLines(k), "\n")
    case None => NoInformation
  }

  /** What `handle_general_question` returns for a question. */
  function GeneralAnswer(question: string): string {
    AnswerFor(FirstTopic(question, 0))
  }

  /** The topic answered is the first one, in table order, whose key occurs in the question. */
  lemma GeneralAnswerFirstMatch(question: string, k: nat)
    requires k < |GeneralQuestionKeys| && Contains(question, GeneralQuestionKeys[k])
    requires forall j :: 0 <= j < k ==> !Contains(question, GeneralQuestionKeys[j])
    ensures GeneralAnswer(question) == Join(TopicLines(k), "\n")
  {
    var r := FirstTopic(question, 0);
    assert r.Some? && r.value == k;
  }

  /** With no topic key in the question, the deferral text is answered. */
  lemma GeneralAnswerFallback(question: string)
    requires !MentionsTopic(question)
    ensures GeneralAnswer(question) == NoInformation
  {
    FirstTopicFound(question);
  }

  /** The loop of `handle_general_question`: the topic keys in order, stopping at the first
      that occurs in `text`. */
  method FindTopic(text: string) returns (topic: Option<TopicIndex>)
    ensures topic == FirstTopic(text, 0)
  {
    var k := 0;
    while k < |GeneralQuestionKeys|
      invariant k <= |GeneralQuestionKeys|
      invariant forall j :: 0 <= j < k ==> !Contains(text, GeneralQuestionKeys[j])
    {
      if Contains(text, GeneralQuestionKeys[k]) {
        return Some(k);
      }
      k := k + 1;
    }
    return None;
  }

  /** `handle_general_question`: the lines of the first topic whose key occurs in the
      question, or the deferral text. */
  method HandleGeneralQuestion(userInput: string) returns (answer: string)
    ensures answer == GeneralAnswer(userInput)
  {
    var topic := FindTopic(userInput);
    answer := AnswerFor(topic);
  }
}
