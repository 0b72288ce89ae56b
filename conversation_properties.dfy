/** What the controller's transitions guarantee: the exact messages each step
    adds, the submit guard, the option-click dispatch, the invariant every
    reachable session keeps, and whole conversations. */
module ConversationProperties {
  import opened Wrappers
  import opened Types
  import opened Strings
  import opened Constants
  import opened GeminiService
  import opened Conversation

  // ---------------------------------------------------------------------
  // Transcripts
  // ---------------------------------------------------------------------

  /** `r`'s transcript continues `s`'s: no message is removed or changed. */
  ghost predicate Extends(s: Session, r: Session)
  {
    |s.messages| <= |r.messages| && r.messages[..|s.messages|] == s.messages
  }

  lemma ExtendsTrans(a: Session, b: Session, c: Session)
    requires Extends(a, b) && Extends(b, c)
    ensures Extends(a, c)
  {
    assert c.messages[..|a.messages|] == c.messages[..|b.messages|][..|a.messages|];
  }

  /** Two additions in a row read as the first's lines followed by the second's. */
  lemma AddedTwice(s: Session, m: Session, r: Session)
    requires Extends(s, m) && Extends(m, r)
    ensures Extends(s, r) && Added(s, r) == Added(s, m) + Added(m, r)
  {
    ExtendsTrans(s, m, r);
    assert r.messages[|s.messages|..] == m.messages[|s.messages|..] + r.messages[|m.messages|..];
  }

  /** Message `k` carries the number `k + 1`. */
  predicate MessagesNumbered(ms: seq<Message>)
  {
    forall k :: 0 <= k < |ms| ==> ms[k].id == k + 1
  }

  /** The one message added, its number, and that nothing else changes. */
  lemma AddMessageFacts(s: Session, text: string, sender: Sender, options: Option<seq<ChoiceOption>>)
    ensures var r := AddMessage(s, text, sender, options);
      && Extends(s, r) && Added(s, r) == [(sender, text)]
      && r.(messages := s.messages) == s
      && (MessagesNumbered(s.messages) ==> MessagesNumbered(r.messages))
  {
  }

  /** sendZiataMessage adds one assistant message and leaves the indicator off. */
  lemma SendFacts(s: Session, text: string, options: Option<seq<ChoiceOption>>)
    ensures var r := SendZiataMessage(s, text, options);
      && Extends(s, r) && Added(s, r) == [(Ziata, text)]
      && r.(messages := s.messages, typing := s.typing) == s && !r.typing
      && (MessagesNumbered(s.messages) ==> MessagesNumbered(r.messages))
  {
    AddMessageFacts(s.(typing := true), text, Ziata, options);
  }

  // ---------------------------------------------------------------------
  // Begin
  // ---------------------------------------------------------------------

  /** Begin adds the user's "Begin" and one assistant message carrying the topic
      menu, and moves to topic selection; nothing else changes. */
  lemma BeginTranscript(ui: Script, s: Session)
    ensures var r := Begin(ui, s);
      && r.state == TOPIC_SELECTION && !r.typing
      && Extends(s, r) && Added(s, r) == [(User, "Begin"), (Ziata, ui.topicPrompt)]
      && r.messages[|s.messages| + 1].options == Some(TopicMenu)
      && r.(state := s.state, messages := s.messages, typing := s.typing) == s
      && (MessagesNumbered(s.messages) ==> MessagesNumbered(r.messages))
  {
    var m := AddMessage(s, "Begin", User, None).(state := TOPIC_SELECTION);
    AddMessageFacts(s, "Begin", User, None);
    SendFacts(m, ui.topicPrompt, Some(TopicMenu));
    AddedTwice(s, m, Begin(ui, s));
  }

  /** The menu offers the four topics, in enum order, each value reading back as its topic. */
  lemma TopicMenuOffersEveryTopic()
    ensures |TopicMenu| == 4
    ensures forall i :: 0 <= i < 4 ==>
      TopicMenu[i].value == TopicValue(AllTopics[i]) && TopicFromValue(TopicMenu[i].value) == Some(AllTopics[i])
    ensures forall t: Topic :: exists i :: 0 <= i < 4 && TopicMenu[i].value == TopicValue(t)
  {
    forall t: Topic ensures exists i :: 0 <= i < 4 && TopicMenu[i].value == TopicValue(t) {
      match t
      case Sleep => assert TopicMenu[0].value == TopicValue(t);
      case Exercise => assert TopicMenu[1].value == TopicValue(t);
      case Food => assert TopicMenu[2].value == TopicValue(t);
      case Habit => assert TopicMenu[3].value == TopicValue(t);
    }
  }

  // ---------------------------------------------------------------------
  // Topic selection
  // ---------------------------------------------------------------------

  /** Selecting a topic whose affirmation arrives: the user's choice, the
      affirmation, then the first question, and the state is asking questions.
      The index and the answers are left as they were. */
  lemma TopicSelectTranscript(s: Session, t: Topic, topicLabel: string, reply: string)
    ensures var r := TopicSelect(s, TopicValue(t), topicLabel, Success(reply));
      && r.topic == Some(TopicValue(t)) && r.state == ASKING_QUESTIONS && !r.typing
      && r.index == s.index && r.answers == s.answers && r.closed == s.closed
      && r.calls == s.calls + [AffirmCall(topicLabel)]
      && Extends(s, r)
      && Added(s, r) == [(User, "I'd like to discuss: " + topicLabel), (Ziata, reply), (Ziata, DialogueOf(t).questions[0])]
      && (MessagesNumbered(s.messages) ==> MessagesNumbered(r.messages))
  {
    var s0 := s.(topic := Some(TopicValue(t)));
    var s1 := AddMessage(s0, "I'd like to discuss: " + topicLabel, User, None);
    AddMessageFacts(s0, "I'd like to discuss: " + topicLabel, User, None);
    var s2 := s1.(calls := s1.calls + [AffirmCall(topicLabel)]);
    var s3 := SendZiataMessage(s2, reply, None).(state := ASKING_QUESTIONS);
    SendFacts(s2, reply, None);
    var r := SendZiataMessage(s3, DialogueOf(t).questions[0], None);
    SendFacts(s3, DialogueOf(t).questions[0], None);
    assert r == TopicSelect(s, TopicValue(t), topicLabel, Success(reply));
    assert Added(s, s2) == Added(s0, s1);
    AddedTwice(s, s2, s3);
    AddedTwice(s, s3, r);
  }

  /** A rejected affirmation leaves only the user's choice, the typing indicator
      on, and the state as it was, with the topic already recorded. */
  lemma TopicSelectAffirmRejected(s: Session, value: string, topicLabel: string, e: Error)
    ensures var r := TopicSelect(s, value, topicLabel, Failure(e));
      && r.topic == Some(value) && r.state == s.state && r.typing
      && r.index == s.index && r.answers == s.answers
      && Extends(s, r) && Added(s, r) == [(User, "I'd like to discuss: " + topicLabel)]
  {
    AddMessageFacts(s.(topic := Some(value)), "I'd like to discuss: " + topicLabel, User, None);
  }

  // ---------------------------------------------------------------------
  // The final step
  // ---------------------------------------------------------------------

  /** The final step: the analysing line, one recommendation, the closing line;
      the state is ENDED, and the analysis call gets the dialogue's questions
      with every answer collected. */
  lemma ConcludeTranscript(ui: Script, s: Session, topic: string, d: Dialogue, analysis: Result<RawAnalysis, Error>)
    ensures var r := Conclude(ui, s, topic, d, analysis);
      && r.state == ENDED && !r.typing
      && r.(state := s.state, typing := s.typing, messages := s.messages, calls := s.calls) == s
      && r.calls == s.calls + [AnalyzeCall(topic, d.questions, s.answers)]
      && Extends(s, r)
      && Added(s, r) == [(Ziata, ui.analyzing), (Ziata, Recommendation(ui, d, analysis)), (Ziata, ui.closing)]
      && (MessagesNumbered(s.messages) ==> MessagesNumbered(r.messages))
  {
    var s1 := SendZiataMessage(s.(state := ANALYZING), ui.analyzing, None);
    SendFacts(s.(state := ANALYZING), ui.analyzing, None);
    var s2 := s1.(calls := s1.calls + [AnalyzeCall(topic, d.questions, s1.answers)]);
    var s3 := SendZiataMessage(s2, Recommendation(ui, d, analysis), None);
    SendFacts(s2, Recommendation(ui, d, analysis), None);
    var r := SendZiataMessage(s3.(state := ENDED), ui.closing, None);
    SendFacts(s3.(state := ENDED), ui.closing, None);
    assert Added(s, s2) == Added(s.(state := ANALYZING), s1);
    AddedTwice(s, s2, s3);
    assert Added(s3, r) == Added(s3.(state := ENDED), r);
    AddedTwice(s, s3, r);
  }

  // ---------------------------------------------------------------------
  // Free-text submission
  // ---------------------------------------------------------------------

  /** The session once the answer is recorded and its rephrase shown, the index advanced. */
  function AfterRephrase(s: Session, text: string, reply: string): Session
  {
    var s1 := AddMessage(s, text, User, None).(answers := s.answers + [text]);
    var s2 := s1.(calls := s1.calls + [RephraseCall(text)]);
    SendZiataMessage(s2, reply, None).(index := s2.index + 1)
  }

  lemma AfterRephraseFacts(s: Session, text: string, reply: string)
    ensures var r := AfterRephrase(s, text, reply);
      && r.index == s.index + 1 && r.answers == s.answers + [text]
      && r.calls == s.calls + [RephraseCall(text)]
      && r.state == s.state && r.topic == s.topic && r.closed == s.closed && !r.typing
      && Extends(s, r) && Added(s, r) == [(User, text), (Ziata, reply)]
      && (MessagesNumbered(s.messages) ==> MessagesNumbered(r.messages))
  {
    var s1 := AddMessage(s, text, User, None).(answers := s.answers + [text]);
    AddMessageFacts(s, text, User, None);
    var s2 := s1.(calls := s1.calls + [RephraseCall(text)]);
    SendFacts(s2, reply, None);
    var r := AfterRephrase(s, text, reply);
    assert Added(s, s2) == [(User, text)];
    AddedTwice(s, s2, r);
  }

  /** With a known topic and an arriving rephrase, the handler goes on to the next question or the final step. */
  lemma FreeTextSubmitAccepted(ui: Script, s: Session, t: Topic, text: string, reply: string, analysis: Result<RawAnalysis, Error>)
    requires s.topic == Some(TopicValue(t))
    ensures var m := AfterRephrase(s, text, reply);
      var r := FreeTextSubmit(ui, s, text, Success(reply), analysis);
      && (m.index < |DialogueOf(t).questions| ==> r == SendZiataMessage(m, DialogueOf(t).questions[m.index], None))
      && (m.index >= |DialogueOf(t).questions| ==> r == Conclude(ui, m, TopicValue(t), DialogueOf(t), analysis))
  {
    assert TopicValue(t) != "" by { match t case Sleep => case Exercise => case Food => case Habit => }
    FreeTextSubmitSucceeds(ui, s, text, reply, analysis);
    assert DialogueFor(TopicValue(t)) == Some(DialogueOf(t));
  }

  /** Every accepted submission first records the text as a user message and as an answer. */
  lemma FreeTextSubmitRecords(ui: Script, s: Session, text: string, rephrase: Result<string, Error>, analysis: Result<RawAnalysis, Error>)
    ensures var r := FreeTextSubmit(ui, s, text, rephrase, analysis);
      && Extends(AddMessage(s, text, User, None), r)
      && r.answers == s.answers + [text]
  {
    var s1 := AddMessage(s, text, User, None);
    AddMessageFacts(s, text, User, None);
    if s.topic.Some? && s.topic.value != "" && rephrase.Success? {
      var m := AfterRephrase(s, text, rephrase.value);
      var s2 := s1.(answers := s.answers + [text], calls := s.calls + [RephraseCall(text)]);
      SendFacts(s2, rephrase.value, None);
      assert Extends(s1, m);
      var r := FreeTextSubmit(ui, s, text, rephrase, analysis);
      match DialogueFor(s.topic.value)
      case None =>
      case Some(d) =>
        if m.index < |d.questions| {
          SendFacts(m, d.questions[m.index], None);
        } else {
          ConcludeTranscript(ui, m, s.topic.value, d, analysis);
        }
        ExtendsTrans(s1, m, r);
    }
  }

  /** The submit guard: the session changes exactly when the trimmed input is
      non-empty and questions are being asked, and then the trimmed text is what
      is recorded, both as the user's message and as the answer. */
  lemma SubmitGuard(ui: Script, s: Session, input: string, rephrase: Result<string, Error>, analysis: Result<RawAnalysis, Error>)
    ensures (Submit(ui, s, input, rephrase, analysis) == s) <==> !(Trim(input) != "" && s.state == ASKING_QUESTIONS)
    ensures Trim(input) != "" && s.state == ASKING_QUESTIONS ==>
      var r := Submit(ui, s, input, rephrase, analysis);
      && r.answers == s.answers + [Trim(input)]
      && |r.messages| > |s.messages|
      && r.messages[|s.messages|] == Message(|s.messages| + 1, Trim(input), User, None)
  {
    if Trim(input) != "" && s.state == ASKING_QUESTIONS {
      FreeTextSubmitRecords(ui, s, Trim(input), rephrase, analysis);
      var s1 := AddMessage(s, Trim(input), User, None);
      var r := Submit(ui, s, input, rephrase, analysis);
      assert r.messages[|s.messages|] == r.messages[..|s1.messages|][|s.messages|];
    }
  }

  /** A non-final answer with its rephrase: the user's text, the rephrase, then the
      next question; the index advances by one and, when index and answers were
      in lockstep, they still are, below the question count. */
  lemma NonFinalSubmitTranscript(ui: Script, s: Session, t: Topic, text: string, reply: string, analysis: Result<RawAnalysis, Error>)
    requires s.topic == Some(TopicValue(t))
    requires s.index + 1 < |DialogueOf(t).questions|
    ensures var r := FreeTextSubmit(ui, s, text, Success(reply), analysis);
      && r.state == s.state && r.topic == s.topic && r.closed == s.closed && !r.typing
      && r.index == s.index + 1 && r.answers == s.answers + [text]
      && r.calls == s.calls + [RephraseCall(text)]
      && Extends(s, r)
      && Added(s, r) == [(User, text), (Ziata, reply), (Ziata, DialogueOf(t).questions[r.index])]
      && (|s.answers| == s.index ==> |r.answers| == r.index < |DialogueOf(t).questions|)
  {
    var m := AfterRephrase(s, text, reply);
    AfterRephraseFacts(s, text, reply);
    FreeTextSubmitAccepted(ui, s, t, text, reply, analysis);
    SendFacts(m, DialogueOf(t).questions[m.index], None);
    AddedTwice(s, m, FreeTextSubmit(ui, s, text, Success(reply), analysis));
  }

  /** The answer to the last question: the user's text, the rephrase, the
      analysing message, exactly one recommendation, the closing message, and the
      state ENDED; the analysis call receives every question and every answer. */
  lemma FinalSubmitTranscript(ui: Script, s: Session, t: Topic, text: string, reply: string, analysis: Result<RawAnalysis, Error>)
    requires s.topic == Some(TopicValue(t))
    requires s.index + 1 == |DialogueOf(t).questions|
    ensures var r := FreeTextSubmit(ui, s, text, Success(reply), analysis);
      && r.state == ENDED && r.topic == s.topic && r.closed == s.closed && !r.typing
      && r.index == |DialogueOf(t).questions| && r.answers == s.answers + [text]
      && r.calls == s.calls + [RephraseCall(text), AnalyzeCall(TopicValue(t), DialogueOf(t).questions, s.answers + [text])]
      && Extends(s, r)
      && Added(s, r) == [(User, text), (Ziata, reply), (Ziata, ui.analyzing),
                         (Ziata, Recommendation(ui, DialogueOf(t), analysis)), (Ziata, ui.closing)]
  {
    var m := AfterRephrase(s, text, reply);
    AfterRephraseFacts(s, text, reply);
    FreeTextSubmitAccepted(ui, s, t, text, reply, analysis);
    ConcludeTranscript(ui, m, TopicValue(t), DialogueOf(t), analysis);
    AddedTwice(s, m, FreeTextSubmit(ui, s, text, Success(reply), analysis));
  }

  /** A rejected rephrase stops the handler after the answer is recorded: the
      index does not advance, only the user's message is added, and the typing
      indicator stays on. */
  lemma RephraseRejected(ui: Script, s: Session, text: string, e: Error, analysis: Result<RawAnalysis, Error>)
    requires s.topic.Some? && s.topic.value != ""
    ensures var r := FreeTextSubmit(ui, s, text, Failure(e), analysis);
      && r.state == s.state && r.index == s.index && r.typing
      && r.answers == s.answers + [text]
      && r.calls == s.calls + [RephraseCall(text)]
      && Extends(s, r) && Added(s, r) == [(User, text)]
  {
    AddMessageFacts(s, text, User, None);
  }

  // ---------------------------------------------------------------------
  // The recommendation
  // ---------------------------------------------------------------------

  /** With the catalog, an analysis naming any category and subtype finds its cell. */
  lemma CatalogLookupNeverMisses(ui: Script, t: Topic, c: NeedCategory, st: Subtype)
    ensures st in DialogueOf(t).responses(c)
    ensures Recommendation(ui, DialogueOf(t), Success(RawAnalysis(CategoryName(c), SubtypeName(st))))
      == DialogueOf(t).responses(c)[st]
  {
    ResponsesComplete(t, c, st);
    RecommendationCases(ui, DialogueOf(t), Success(RawAnalysis(CategoryName(c), SubtypeName(st))));
  }

  // ---------------------------------------------------------------------
  // Option clicks
  // ---------------------------------------------------------------------

  lemma EchoAndCloseTranscript(ui: Script, s: Session, optionLabel: string)
    ensures var r := EchoAndClose(ui, s, optionLabel);
      && r.closed && !r.typing
      && Extends(s, r) && Added(s, r) == [(User, optionLabel), (Ziata, ui.sessionEnded)]
      && r.(messages := s.messages, closed := s.closed, typing := s.typing) == s
      && (MessagesNumbered(s.messages) ==> MessagesNumbered(r.messages))
  {
    var m := AddMessage(s, optionLabel, User, None).(closed := true);
    AddMessageFacts(s, optionLabel, User, None);
    SendFacts(m, ui.sessionEnded, None);
    AddedTwice(s, m, EchoAndClose(ui, s, optionLabel));
  }

  /** Clicks are dispatched on the state: begin from WELCOME, topic selection from
      TOPIC_SELECTION, echo-and-close from ENDED (closed or not), and nothing at all
      in any other state or for any other value in WELCOME. */
  lemma OptionClickDispatch(ui: Script, s: Session, value: string, optionLabel: string, affirm: Result<string, Error>)
    ensures var r := OptionClick(ui, s, value, optionLabel, affirm);
      && (s.state == WELCOME ==> r == if value == "begin" then Begin(ui, s) else s)
      && (s.state == TOPIC_SELECTION ==> r == TopicSelect(s, value, optionLabel, affirm))
      && (s.state == ASKING_QUESTIONS || s.state == ANALYZING || s.state == SHOWING_RESULTS ==> r == s)
      && (s.state == ENDED ==>
            r.state == ENDED && r.closed && !r.typing
            && Extends(s, r) && Added(s, r) == [(User, optionLabel), (Ziata, ui.sessionEnded)]
            && r.(messages := s.messages, closed := s.closed, typing := s.typing) == s)
  {
    if s.state == ENDED {
      EchoAndCloseTranscript(ui, s, optionLabel);
    }
  }

  // ---------------------------------------------------------------------
  // The invariant of reachable sessions
  // ---------------------------------------------------------------------

  /** The dialogue of the session's topic, if the topic is registered. */
  function CurrentDialogue(s: Session): Option<Dialogue>
  {
    if s.topic.Some? then DialogueFor(s.topic.value) else None
  }

  /** What holds between any two events:
      - the transcript is numbered by position;
      - ANALYZING and SHOWING_RESULTS are never the state between events;
      - only an ended session can be closed;
      - before a topic is chosen there is none;
      - before any question is asked the index is 0 and there are no answers;
      - the index never exceeds the number of answers;
      - while asking, a topic is set and, if registered, a question is pending;
      - an ended session has a registered topic and every question asked. */
  ghost predicate Inv(s: Session)
  {
    && MessagesNumbered(s.messages)
    && s.state != ANALYZING && s.state != SHOWING_RESULTS
    && (s.closed ==> s.state == ENDED)
    && (s.state == WELCOME ==> s.topic == None)
    && (s.state == WELCOME || s.state == TOPIC_SELECTION ==> s.index == 0 && s.answers == [])
    && s.index <= |s.answers|
    && (s.state == ASKING_QUESTIONS ==>
          s.topic.Some? && (CurrentDialogue(s).Some? ==> s.index < |CurrentDialogue(s).value.questions|))
    && (s.state == ENDED ==>
          CurrentDialogue(s).Some? && s.index == |CurrentDialogue(s).value.questions|)
  }

  lemma InitialInv()
    ensures Inv(Initial())
  {
  }

  /** The user-interface events: the footer's Begin button (shown only in WELCOME),
      its End Session button (shown only in ENDED before closing), a click on any
      option chip, and the footer form. */
  datatype Event =
    | BeginButton
    | EndSessionButton
    | OptionButton(value: string, optionLabel: string, affirm: Result<string, Error>)
    | SendForm(input: string, rephrase: Result<string, Error>, analysis: Result<RawAnalysis, Error>)

  function Step(ui: Script, s: Session, e: Event): Session
  {
    match e
    case BeginButton => if s.state == WELCOME then Begin(ui, s) else s
    case EndSessionButton => if s.state == ENDED && !s.closed then EchoAndClose(ui, s, "End Session") else s
    case OptionButton(v, l, a) => OptionClick(ui, s, v, l, a)
    case SendForm(i, rp, an) => Submit(ui, s, i, rp, an)
  }

  function Run(ui: Script, s: Session, events: seq<Event>): Session
    decreases |events|
  {
    if events == [] then s else Run(ui, Step(ui, s, events[0]), events[1..])
  }

  lemma TopicSelectKeepsInv(s: Session, value: string, topicLabel: string, affirm: Result<string, Error>)
    requires Inv(s) && s.state == TOPIC_SELECTION
    ensures Inv(TopicSelect(s, value, topicLabel, affirm)) && Extends(s, TopicSelect(s, value, topicLabel, affirm))
  {
    var s0 := s.(topic := Some(value));
    AddMessageFacts(s0, "I'd like to discuss: " + topicLabel, User, None);
    var s1 := AddMessage(s0, "I'd like to discuss: " + topicLabel, User, None);
    var s2 := s1.(calls := s1.calls + [AffirmCall(topicLabel)]);
    if affirm.Success? {
      SendFacts(s2, affirm.value, None);
      var s3 := SendZiataMessage(s2, affirm.value, None).(state := ASKING_QUESTIONS);
      ExtendsTrans(s, s2, s3);
      match DialogueFor(value)
      case None =>
      case Some(d) =>
        SendFacts(s3, d.questions[0], None);
        ExtendsTrans(s, s3, TopicSelect(s, value, topicLabel, affirm));
    }
  }

  /** With a known topic and an arriving rephrase, the handler is the rephrase step followed by the next question or the final step. */
  lemma FreeTextSubmitSucceeds(ui: Script, s: Session, text: string, reply: string, analysis: Result<RawAnalysis, Error>)
    requires s.topic.Some? && s.topic.value != ""
    ensures FreeTextSubmit(ui, s, text, Success(reply), analysis)
      == NextQuestionOrConclude(ui, AfterRephrase(s, text, reply), s.topic.value, analysis)
  {
  }

  /** The next question or the final step keeps the invariant of a session that
      has just advanced past a question. */
  lemma NextQuestionOrConcludeKeepsInv(ui: Script, m: Session, topic: string, analysis: Result<RawAnalysis, Error>)
    requires m.state == ASKING_QUESTIONS && m.topic == Some(topic) && !m.closed
    requires MessagesNumbered(m.messages) && m.index <= |m.answers|
    requires DialogueFor(topic).Some? ==> m.index <= |DialogueFor(topic).value.questions|
    ensures Inv(NextQuestionOrConclude(ui, m, topic, analysis)) && Extends(m, NextQuestionOrConclude(ui, m, topic, analysis))
  {
    match DialogueFor(topic)
    case None =>
    case Some(d) =>
      if m.index < |d.questions| {
        SendFacts(m, d.questions[m.index], None);
      } else {
        ConcludeTranscript(ui, m, topic, d, analysis);
      }
  }

  lemma FreeTextSubmitKeepsInv(ui: Script, s: Session, text: string, rephrase: Result<string, Error>, analysis: Result<RawAnalysis, Error>)
    requires Inv(s) && s.state == ASKING_QUESTIONS
    ensures Inv(FreeTextSubmit(ui, s, text, rephrase, analysis)) && Extends(s, FreeTextSubmit(ui, s, text, rephrase, analysis))
  {
    AddMessageFacts(s, text, User, None);
    if s.topic.value != "" && rephrase.Success? {
      var m := AfterRephrase(s, text, rephrase.value);
      AfterRephraseFacts(s, text, rephrase.value);
      FreeTextSubmitSucceeds(ui, s, text, rephrase.value, analysis);
      NextQuestionOrConcludeKeepsInv(ui, m, s.topic.value, analysis);
      ExtendsTrans(s, m, FreeTextSubmit(ui, s, text, rephrase, analysis));
    }
  }

  /** Every event keeps the invariant, and the transcript only grows. */
  lemma StepKeepsInv(ui: Script, s: Session, e: Event)
    requires Inv(s)
    ensures Inv(Step(ui, s, e)) && Extends(s, Step(ui, s, e))
  {
    match e
    case BeginButton =>
      if s.state == WELCOME { BeginTranscript(ui, s); }
    case EndSessionButton =>
      if s.state == ENDED && !s.closed { EchoAndCloseTranscript(ui, s, "End Session"); }
    case OptionButton(v, l, a) =>
      if s.state == WELCOME && v == "begin" { BeginTranscript(ui, s); }
      else if s.state == TOPIC_SELECTION { TopicSelectKeepsInv(s, v, l, a); }
      else if s.state == ENDED { EchoAndCloseTranscript(ui, s, l); }
    case SendForm(i, rp, an) =>
      if Trim(i) != "" && s.state == ASKING_QUESTIONS { FreeTextSubmitKeepsInv(ui, s, Trim(i), rp, an); }
  }

  /** Every session reachable from a session keeping the invariant keeps it, and
      its transcript continues the earlier one. */
  lemma {:induction false} RunKeepsInv(ui: Script, s: Session, events: seq<Event>)
    requires Inv(s)
    ensures Inv(Run(ui, s, events)) && Extends(s, Run(ui, s, events))
    decreases |events|
  {
    if events != [] {
      var s' := Step(ui, s, events[0]);
      StepKeepsInv(ui, s, events[0]);
      RunKeepsInv(ui, s', events[1..]);
      ExtendsTrans(s, s', Run(ui, s, events));
    }
  }

  /** From the initial session, whatever the events: SHOWING_RESULTS is never the
      state, a closed session has ended, the two seeded messages stay first and
      every message is numbered by its position. */
  lemma ReachableInv(ui: Script, events: seq<Event>)
    ensures Inv(Run(ui, Initial(), events))
    ensures |Run(ui, Initial(), events).messages| >= 2
    ensures Run(ui, Initial(), events).messages[..2] == InitialMessages
  {
    InitialInv();
    RunKeepsInv(ui, Initial(), events);
  }

  /** Because topic selection is only reachable before any question, not resetting
      the index and the answers there loses nothing: the first question is asked
      with index 0 and no answers. */
  lemma TopicSelectStartsFresh(s: Session, t: Topic, topicLabel: string, reply: string)
    requires Inv(s) && s.state == TOPIC_SELECTION
    ensures var r := TopicSelect(s, TopicValue(t), topicLabel, Success(reply));
      r.index == 0 && r.answers == [] && r.state == ASKING_QUESTIONS
  {
    TopicSelectTranscript(s, t, topicLabel, reply);
  }

  // ---------------------------------------------------------------------
  // Whole conversations
  // ---------------------------------------------------------------------

  function TrimAll(inputs: seq<string>): seq<string>
  {
    seq(|inputs|, i requires 0 <= i < |inputs| => Trim(inputs[i]))
  }

  /** Answers collected so far followed by the trimmed inputs, one input at a time. */
  lemma TrimAllCons(answers: seq<string>, inputs: seq<string>)
    requires inputs != []
    ensures answers + TrimAll(inputs) == (answers + [Trim(inputs[0])]) + TrimAll(inputs[1..])
  {
    assert TrimAll(inputs) == [Trim(inputs[0])] + TrimAll(inputs[1..]);
  }

  /** One accepted answer in lockstep: the index advances with the answers, and
      past the last question the conversation has ended with the analysis call
      last, given every answer. */
  lemma SubmitAdvances(ui: Script, s: Session, t: Topic, input: string, reply: string, analysis: Result<RawAnalysis, Error>)
    requires s.state == ASKING_QUESTIONS && s.topic == Some(TopicValue(t))
    requires |s.answers| == s.index < |DialogueOf(t).questions|
    requires Trim(input) != ""
    ensures var r := Submit(ui, s, input, Success(reply), analysis);
      && r.topic == s.topic && r.answers == s.answers + [Trim(input)] && r.index == s.index + 1
      && (r.index < |DialogueOf(t).questions| ==> r.state == ASKING_QUESTIONS)
      && (r.index == |DialogueOf(t).questions| ==>
            r.state == ENDED && |r.calls| > 0
            && r.calls[|r.calls| - 1] == AnalyzeCall(TopicValue(t), DialogueOf(t).questions, r.answers))
  {
    if s.index + 1 < |DialogueOf(t).questions| {
      NonFinalSubmitTranscript(ui, s, t, Trim(input), reply, analysis);
    } else {
      FinalSubmitTranscript(ui, s, t, Trim(input), reply, analysis);
    }
  }

  /** Submitting `inputs` through the form in turn, the i-th rephrase arriving as `replies[i]`. */
  function AnswerAll(ui: Script, s: Session, inputs: seq<string>, replies: seq<string>, analysis: Result<RawAnalysis, Error>): Session
    requires |replies| == |inputs|
    decreases |inputs|
  {
    if inputs == [] then s
    else AnswerAll(ui, Submit(ui, s, inputs[0], Success(replies[0]), analysis), inputs[1..], replies[1..], analysis)
  }

  /** `r` has ended on dialogue `d` after collecting exactly `answers`, one per
      question, and its last proxy call was the analysis of those answers. */
  ghost predicate EndedWith(r: Session, key: string, d: Dialogue, answers: seq<string>)
  {
    && r.state == ENDED
    && r.index == |r.answers| == |d.questions|
    && r.answers == answers
    && |r.calls| > 0 && r.calls[|r.calls| - 1] == AnalyzeCall(key, d.questions, answers)
  }

  /** The first of the remaining answers, as a step of the whole conversation. */
  lemma FirstAnswer(ui: Script, s: Session, d: Dialogue, inputs: seq<string>, replies: seq<string>, analysis: Result<RawAnalysis, Error>) returns (s': Session)
    requires s.state == ASKING_QUESTIONS && s.topic.Some? && DialogueFor(s.topic.value) == Some(d)
    requires |s.answers| == s.index < |d.questions|
    requires 0 < |inputs| == |replies| && Trim(inputs[0]) != ""
    ensures s'.topic == s.topic && s'.answers == s.answers + [Trim(inputs[0])] && s'.index == s.index + 1
    ensures s'.index < |d.questions| ==> s'.state == ASKING_QUESTIONS
    ensures s'.index == |d.questions| ==> EndedWith(s', s.topic.value, d, s'.answers)
    ensures AnswerAll(ui, s, inputs, replies, analysis) == AnswerAll(ui, s', inputs[1..], replies[1..], analysis)
    ensures |inputs| == 1 ==> AnswerAll(ui, s, inputs, replies, analysis) == s'
  {
    var t := TopicFromValue(s.topic.value).value;
    s' := Submit(ui, s, inputs[0], Success(replies[0]), analysis);
    SubmitAdvances(ui, s, t, inputs[0], replies[0], analysis);
    if |inputs| == 1 {
      assert inputs[1..] == [];
    }
  }

  /** From any point of the questioning on a registered topic with index and
      answers in lockstep, answering every remaining question (each input
      non-blank, each rephrase arriving) ends the conversation: the state is
      ENDED, exactly one answer per question was collected (the trimmed inputs,
      in order) and the analysis call received the questions with exactly those
      answers. */
  lemma {:induction false} AnswerAllEnds(ui: Script, s: Session, d: Dialogue, inputs: seq<string>, replies: seq<string>, analysis: Result<RawAnalysis, Error>)
    requires s.state == ASKING_QUESTIONS && s.topic.Some? && DialogueFor(s.topic.value) == Some(d)
    requires |s.answers| == s.index < |d.questions|
    requires |inputs| == |replies| == |d.questions| - s.index
    requires forall i :: 0 <= i < |inputs| ==> Trim(inputs[i]) != ""
    ensures EndedWith(AnswerAll(ui, s, inputs, replies, analysis), s.topic.value, d, s.answers + TrimAll(inputs))
    decreases |inputs|
  {
    var s' := FirstAnswer(ui, s, d, inputs, replies, analysis);
    TrimAllCons(s.answers, inputs);
    if |inputs| == 1 {
      assert TrimAll(inputs[1..]) == [];
    } else {
      AnswerAllEnds(ui, s', d, inputs[1..], replies[1..], analysis);
    }
  }

  // ---------------------------------------------------------------------
  // A rejected rephrase, as the handler is written, and corrected
  // ---------------------------------------------------------------------

  /** As written, a rejected rephrase leaves one more answer than the index: the
      next accepted submission is recorded one slot after the question it answers. */
  lemma RephraseRejectionBreaksLockstep(ui: Script, s: Session, t: Topic, text: string, e: Error, reply: string, analysis: Result<RawAnalysis, Error>)
    requires s.state == ASKING_QUESTIONS && s.topic == Some(TopicValue(t))
    requires |s.answers| == s.index && s.index + 1 < |DialogueOf(t).questions|
    ensures var r1 := FreeTextSubmit(ui, s, text, Failure(e), analysis);
      var r2 := FreeTextSubmit(ui, r1, text, Success(reply), analysis);
      && r1.index == s.index && r1.answers == s.answers + [text] && r1.typing && r1.state == ASKING_QUESTIONS
      && r2.index == s.index + 1 && r2.answers == s.answers + [text, text]
      && Extends(r1, r2) && Added(r1, r2) == [(User, text), (Ziata, reply), (Ziata, DialogueOf(t).questions[s.index + 1])]
  {
    assert TopicValue(t) != "" by { match t case Sleep => case Exercise => case Food => case Habit => }
    var r1 := FreeTextSubmit(ui, s, text, Failure(e), analysis);
    RephraseRejected(ui, s, text, e, analysis);
    NonFinalSubmitTranscript(ui, r1, t, text, reply, analysis);
  }

  /** The phrase the conversation falls back on when a rephrase cannot be had. */
  const RephraseFallback := "Thank you for sharing that."

  function ReplyOrFallback(reply: Result<string, Error>): string
  {
    if reply.Success? then reply.value else RephraseFallback
  }

  /** The corrected submission: a rejected rephrase is replaced by the fallback
      phrase and the conversation carries on. */
  function SubmitRecovering(ui: Script, s: Session, input: string, rephrase: Result<string, Error>, analysis: Result<RawAnalysis, Error>): Session
  {
    Submit(ui, s, input, Success(ReplyOrFallback(rephrase)), analysis)
  }

  /** With the correction, one accepted answer advances the index by one whatever
      the rephrase call did, and index and answers stay in lockstep. */
  lemma SubmitRecoveringKeepsLockstep(ui: Script, s: Session, t: Topic, input: string, rephrase: Result<string, Error>, analysis: Result<RawAnalysis, Error>)
    requires s.state == ASKING_QUESTIONS && s.topic == Some(TopicValue(t))
    requires |s.answers| == s.index < |DialogueOf(t).questions|
    requires Trim(input) != ""
    ensures var r := SubmitRecovering(ui, s, input, rephrase, analysis);
      && r.index == s.index + 1 && |r.answers| == r.index
      && (r.state == ASKING_QUESTIONS || r.state == ENDED)
      && (r.state == ASKING_QUESTIONS <==> r.index < |DialogueOf(t).questions|)
  {
    SubmitAdvances(ui, s, t, input, ReplyOrFallback(rephrase), analysis);
  }

  function AnswerAllRecovering(ui: Script, s: Session, inputs: seq<string>, rephrases: seq<Result<string, Error>>, analysis: Result<RawAnalysis, Error>): Session
    requires |rephrases| == |inputs|
    decreases |inputs|
  {
    if inputs == [] then s
    else AnswerAllRecovering(ui, SubmitRecovering(ui, s, inputs[0], rephrases[0], analysis), inputs[1..], rephrases[1..], analysis)
  }

  function Fallbacks(rephrases: seq<Result<string, Error>>): seq<string>
  {
    seq(|rephrases|, i requires 0 <= i < |rephrases| => ReplyOrFallback(rephrases[i]))
  }

  lemma {:induction false} AnswerAllRecoveringIsAnswerAll(ui: Script, s: Session, inputs: seq<string>, rephrases: seq<Result<string, Error>>, analysis: Result<RawAnalysis, Error>)
    requires |rephrases| == |inputs|
    ensures AnswerAllRecovering(ui, s, inputs, rephrases, analysis) == AnswerAll(ui, s, inputs, Fallbacks(rephrases), analysis)
    decreases |inputs|
  {
    if inputs != [] {
      var s' := SubmitRecovering(ui, s, inputs[0], rephrases[0], analysis);
      AnswerAllRecoveringIsAnswerAll(ui, s', inputs[1..], rephrases[1..], analysis);
      assert Fallbacks(rephrases)[1..] == Fallbacks(rephrases[1..]);
    }
  }

  /** With the correction the conversation reaches ENDED after one answer per
      question even when every rephrase call is rejected, and the analysis call
      gets exactly one answer per question. */
  lemma RecoveringAlwaysEnds(ui: Script, s: Session, d: Dialogue, inputs: seq<string>, rephrases: seq<Result<string, Error>>, analysis: Result<RawAnalysis, Error>)
    requires s.state == ASKING_QUESTIONS && s.topic.Some? && DialogueFor(s.topic.value) == Some(d)
    requires |s.answers| == s.index < |d.questions|
    requires |inputs| == |rephrases| == |d.questions| - s.index
    requires forall i :: 0 <= i < |inputs| ==> Trim(inputs[i]) != ""
    ensures EndedWith(AnswerAllRecovering(ui, s, inputs, rephrases, analysis), s.topic.value, d, s.answers + TrimAll(inputs))
  {
    AnswerAllRecoveringIsAnswerAll(ui, s, inputs, rephrases, analysis);
    AnswerAllEnds(ui, s, d, inputs, Fallbacks(rephrases), analysis);
  }
}
