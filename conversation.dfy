/** The conversation controller of App.tsx as a specification: the session's
    working memory as a value and each handler as a function from the session
    before to the session after. The outcomes of the proxy calls are
    parameters. The `App.Controller` class is proved to perform exactly these
    transitions; the lemmas here say what the transitions guarantee. */
module Conversation {
  import opened Wrappers
  import opened Types
  import opened Strings
  import opened Constants
  import opened GeminiService

  // ---------------------------------------------------------------------
  // Fixed texts of the controller
  // ---------------------------------------------------------------------

  /** The six fixed lines the controller sends. The transitions take them as a
      value so that what is proved about them holds whatever their wording;
      `ZiataScript` holds the widget's own. */
  datatype Script = Script(
    topicPrompt: string,
    analyzing: string,
    lookupMiss: string,
    analysisError: string,
    closing: string,
    sessionEnded: string)

  const ZiataScript := Script(
    "Which topic would you like to discuss with Ziata? Please click below to select from the menu of available topics.",
    "Thank you for sharing. Let me analyze your responses to provide a personalized recommendation...",
    "I've analyzed your responses. It seems focusing on consistency could be very helpful for you.",
    "I had a little trouble analyzing your responses. However, a great first step is always to ensure you're getting consistent sleep. Let's focus on that.",
    "Thank you for chatting with Ziata. Remember, small changes lead to remarkable results. Have a great day!",
    "This session has ended. Thank you for your time! Please return to survey.")

  /** No fixed line is empty. */
  predicate Filled(ui: Script)
  {
    ui.topicPrompt != "" && ui.analyzing != "" && ui.lookupMiss != ""
    && ui.analysisError != "" && ui.closing != "" && ui.sessionEnded != ""
  }

  lemma ZiataScriptFilled()
    ensures Filled(ZiataScript)
  {
  }

  /** The options of the topic menu, in the order shown. */
  const TopicMenu: seq<ChoiceOption> := [
    ChoiceOption("Sleep Habits", TopicValue(Sleep)),
    ChoiceOption("Exercise and Energy Levels", TopicValue(Exercise)),
    ChoiceOption("Food and Diet", TopicValue(Food)),
    ChoiceOption("Habit Formation", TopicValue(Habit))
  ]

  // ---------------------------------------------------------------------
  // Timed send: the delay arithmetic of sendZiataMessage
  // ---------------------------------------------------------------------

  const TargetLatency: int := 750

  /** `Math.max(0, TARGET_LATENCY - elapsedTime)`: the wait after the message text is ready. */
  function RemainingTime(elapsed: int): (wait: int)
    ensures wait >= 0 && elapsed + wait >= TargetLatency
    ensures wait == 0 || elapsed + wait == TargetLatency
    ensures wait > 0 <==> elapsed < TargetLatency
  {
    if TargetLatency - elapsed > 0 then TargetLatency - elapsed else 0
  }

  /** When the message appears, for an action that started at `start` and took `elapsed`:
      never before the target latency, and with no extra wait once the action took longer. */
  function RevealTime(start: int, elapsed: int): (t: int)
    ensures t >= start + TargetLatency && t >= start + elapsed
    ensures t == start + TargetLatency || t == start + elapsed
    ensures elapsed >= TargetLatency ==> t == start + elapsed
  {
    start + elapsed + RemainingTime(elapsed)
  }

  // ---------------------------------------------------------------------
  // Session and the primitives every handler is built from
  // ---------------------------------------------------------------------

  /** The controller's state: the chat state, the topic reference (the raw option
      value, `None` while null), the question index, the answers, the transcript,
      the typing indicator, the closed flag and the log of proxy calls made. */
  datatype Session = Session(
    state: ChatState,
    topic: Option<string>,
    index: nat,
    answers: seq<string>,
    messages: seq<Message>,
    typing: bool,
    closed: bool,
    calls: seq<ServiceCall>)

  function Initial(): Session
  {
    Session(WELCOME, None, 0, [], InitialMessages, false, false, [])
  }

  /** addMessage: one message at the end, numbered by its position (a stand-in for the clock-based id). */
  function AddMessage(s: Session, text: string, sender: Sender, options: Option<seq<ChoiceOption>>): (r: Session)
    ensures |r.messages| == |s.messages| + 1 && r.messages[..|s.messages|] == s.messages
    ensures r.messages[|s.messages|] == Message(|s.messages| + 1, text, sender, options)
    ensures r.(messages := s.messages) == s
  {
    s.(messages := s.messages + [Message(|s.messages| + 1, text, sender, options)])
  }

  /** sendZiataMessage with text that is at hand: the typing indicator goes on, the
      message is added, the indicator goes off. */
  function SendZiataMessage(s: Session, text: string, options: Option<seq<ChoiceOption>>): Session
  {
    AddMessage(s.(typing := true), text, Ziata, options).(typing := false)
  }

  /** Sender and text of each message, the part of the transcript a reader sees. */
  function Lines(ms: seq<Message>): seq<(Sender, string)>
  {
    seq(|ms|, i requires 0 <= i < |ms| => (ms[i].sender, ms[i].text))
  }

  /** The messages `r` added after those of `s`. */
  function Added(s: Session, r: Session): seq<(Sender, string)>
    requires |s.messages| <= |r.messages|
  {
    Lines(r.messages[|s.messages|..])
  }

  // ---------------------------------------------------------------------
  // Handlers
  // ---------------------------------------------------------------------

  /** handleBegin. */
  function Begin(ui: Script, s: Session): Session
  {
    SendZiataMessage(AddMessage(s, "Begin", User, None).(state := TOPIC_SELECTION), ui.topicPrompt, Some(TopicMenu))
  }

  /** handleTopicSelect with the outcome of the affirmation call. */
  function TopicSelect(s: Session, value: string, topicLabel: string, affirm: Result<string, Error>): Session
  {
    var s1 := AddMessage(s.(topic := Some(value)), "I'd like to discuss: " + topicLabel, User, None);
    var s2 := s1.(calls := s1.calls + [AffirmCall(topicLabel)]);
    if affirm.Failure? then s2.(typing := true)   // the affirmation rejects: the handler stops
    else
      var s3 := SendZiataMessage(s2, affirm.value, None).(state := ASKING_QUESTIONS);
      match DialogueFor(value)
      case None => s3.(typing := true)   // the first-question lookup throws
      case Some(d) => SendZiataMessage(s3, d.questions[0], None)
  }

  /** `DIALOGUE_FLOW[topic].responses[category]?.[subtype]` for the strings the proxy returned. */
  function Lookup(d: Dialogue, category: string, subtype: string): Option<string>
  {
    match (CategoryFromName(category), SubtypeFromName(subtype))
    case (Some(c), Some(st)) => Response(d, c, st)
    case _ => None
  }

  /** The one recommendation message of the final step: the table text when the
      analysis names a filled cell, the lookup-miss text when it does not, the
      error text when the analysis call was rejected. */
  function Recommendation(ui: Script, d: Dialogue, analysis: Result<RawAnalysis, Error>): string
  {
    match analysis
    case Failure(_) => ui.analysisError
    case Success(raw) =>
      match Lookup(d, raw.category, raw.subtype)
      case Some(text) => if text != "" then text else ui.lookupMiss
      case None => ui.lookupMiss
  }

  /** The three outcomes of the recommendation: the error line when the analysis
      call rejects, the lookup-miss line when a name is not a member of its enum
      or names an empty cell, the cell's text otherwise; never empty when no
      fixed line is. */
  lemma RecommendationCases(ui: Script, d: Dialogue, analysis: Result<RawAnalysis, Error>)
    ensures var r := Recommendation(ui, d, analysis);
      && (analysis.Failure? ==> r == ui.analysisError)
      && (analysis.Success? && (analysis.value.category !in CategoryNames || analysis.value.subtype !in SubtypeNames) ==>
            r == ui.lookupMiss)
      && (forall c: NeedCategory, st: Subtype :: analysis == Success(RawAnalysis(CategoryName(c), SubtypeName(st))) ==>
            (if st in d.responses(c) && d.responses(c)[st] != "" then r == d.responses(c)[st] else r == ui.lookupMiss))
      && (Filled(ui) ==> r != "")
  {
  }

  /** The final step once the last rephrase is shown: analysing, then the
      recommendation, then ended with the closing message. */
  function Conclude(ui: Script, s: Session, topic: string, d: Dialogue, analysis: Result<RawAnalysis, Error>): Session
  {
    var s1 := SendZiataMessage(s.(state := ANALYZING), ui.analyzing, None);
    var s2 := s1.(calls := s1.calls + [AnalyzeCall(topic, d.questions, s1.answers)]);
    var s3 := SendZiataMessage(s2, Recommendation(ui, d, analysis), None);
    SendZiataMessage(s3.(state := ENDED), ui.closing, None)
  }

  /** handleFreeTextSubmit with the outcomes of the rephrase and analysis calls. */
  function FreeTextSubmit(ui: Script, s: Session, text: string, rephrase: Result<string, Error>, analysis: Result<RawAnalysis, Error>): Session
  {
    var s1 := AddMessage(s, text, User, None).(answers := s.answers + [text]);
    if s1.topic.None? || s1.topic.value == "" then s1
    else
      var s2 := s1.(calls := s1.calls + [RephraseCall(text)]);
      if rephrase.Failure? then s2.(typing := true)   // the rephrase rejects: the handler stops
      else NextQuestionOrConclude(ui, SendZiataMessage(s2, rephrase.value, None).(index := s2.index + 1), s2.topic.value, analysis)
  }

  /** The rest of handleFreeTextSubmit once the rephrase is shown and the index
      advanced: the question at the new index, or the final step past the last one. */
  function NextQuestionOrConclude(ui: Script, s: Session, topic: string, analysis: Result<RawAnalysis, Error>): Session
  {
    match DialogueFor(topic)
    case None => s   // reading the questions of an unknown topic throws
    case Some(d) =>
      if s.index < |d.questions| then SendZiataMessage(s, d.questions[s.index], None)
      else Conclude(ui, s, topic, d, analysis)
  }

  /** handleSubmit: the trimmed input is submitted only while asking questions. */
  function Submit(ui: Script, s: Session, input: string, rephrase: Result<string, Error>, analysis: Result<RawAnalysis, Error>): Session
  {
    var text := Trim(input);
    if text != "" && s.state == ASKING_QUESTIONS then FreeTextSubmit(ui, s, text, rephrase, analysis) else s
  }

  /** The ENDED branch of handleOptionClick: echo the label, close, say goodbye. */
  function EchoAndClose(ui: Script, s: Session, optionLabel: string): Session
  {
    SendZiataMessage(AddMessage(s, optionLabel, User, None).(closed := true), ui.sessionEnded, None)
  }

  /** handleOptionClick, dispatched on the state alone (and on the value in WELCOME). */
  function OptionClick(ui: Script, s: Session, value: string, optionLabel: string, affirm: Result<string, Error>): Session
  {
    if s.state == WELCOME && value == "begin" then Begin(ui, s)
    else if s.state == TOPIC_SELECTION then TopicSelect(s, value, optionLabel, affirm)
    else if s.state == ENDED then EchoAndClose(ui, s, optionLabel)
    else s
  }
}
