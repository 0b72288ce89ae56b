/** The chat widget's controller (App.tsx) as an object whose handlers update
    its state step by step. Each handler is proved to perform exactly the
    transition of the same name in `Conversation`, so everything proved there
    about transcripts, the submit guard and reachable sessions holds of the
    controller. The outcomes of the proxy calls are the handlers' parameters. */
module App {
  import opened Wrappers
  import opened Types
  import opened Strings
  import opened Constants
  import opened GeminiService
  import opened Conversation
  import opened ConversationProperties

  class Controller {
    /** The transcript shown. */
    var messages: seq<Message>
    var chatState: ChatState
    /** Whether the typing indicator is shown. */
    var isTyping: bool
    var isSessionClosed: bool
    /** `currentTopicRef`: the raw option value, `None` while null. */
    var currentTopic: Option<string>
    /** `currentQuestionIndexRef`. */
    var currentQuestionIndex: nat
    /** `userAnswersRef`. */
    var userAnswers: seq<string>
    /** The proxy calls made so far, in order. */
    var calls: seq<ServiceCall>
    /** The fixed lines the controller sends. */
    const script: Script

    /** The controller's state as a value. */
    function Snapshot(): Session
      reads this
    {
      Session(chatState, currentTopic, currentQuestionIndex, userAnswers, messages, isTyping, isSessionClosed, calls)
    }

    /** The widget as first rendered: the two seeded messages, WELCOME, no topic. */
    constructor ()
      ensures Snapshot() == Initial() && script == ZiataScript
    {
      messages := InitialMessages;
      chatState := WELCOME;
      isTyping := false;
      isSessionClosed := false;
      currentTopic := None;
      currentQuestionIndex := 0;
      userAnswers := [];
      calls := [];
      script := ZiataScript;
    }

    /** addMessage: appends one message numbered by its position. */
    method AddMessage(text: string, sender: Sender, options: Option<seq<ChoiceOption>>)
      modifies this
      ensures Snapshot() == Conversation.AddMessage(old(Snapshot()), text, sender, options)
    {
      messages := messages + [Message(|messages| + 1, text, sender, options)];
    }

    /** sendZiataMessage: the typing indicator goes on while the action runs; a
        resolved action's text is added and the indicator goes off, a rejected
        one leaves the indicator on and the caller stops. */
    method SendZiataMessage(action: Result<string, Error>, options: Option<seq<ChoiceOption>>) returns (delivered: bool)
      modifies this
      ensures delivered <==> action.Success?
      ensures delivered ==> Snapshot() == Conversation.SendZiataMessage(old(Snapshot()), action.value, options)
      ensures !delivered ==> Snapshot() == old(Snapshot()).(typing := true)
    {
      isTyping := true;
      if action.Failure? {
        return false;
      }
      AddMessage(action.value, Ziata, options);
      isTyping := false;
      return true;
    }

    method HandleBegin()
      modifies this
      ensures Snapshot() == Begin(script, old(Snapshot()))
    {
      AddMessage("Begin", User, None);
      chatState := TOPIC_SELECTION;
      var _ := SendZiataMessage(Success(script.topicPrompt), Some(TopicMenu));
    }

    method HandleTopicSelect(value: string, topicLabel: string, affirm: Result<string, Error>)
      modifies this
      ensures Snapshot() == TopicSelect(old(Snapshot()), value, topicLabel, affirm)
    {
      currentTopic := Some(value);
      AddMessage("I'd like to discuss: " + topicLabel, User, None);
      calls := calls + [AffirmCall(topicLabel)];
      var delivered := SendZiataMessage(affirm, None);
      if !delivered {
        return;
      }
      chatState := ASKING_QUESTIONS;
      var firstQuestion := match DialogueFor(value)
        case Some(d) => Success(d.questions[0])
        case None => Failure(TypeError);
      delivered := SendZiataMessage(firstQuestion, None);
    }

    /** The final step of handleFreeTextSubmit: analysing, the recommendation, ended. */
    method Conclude(topic: string, d: Dialogue, analysis: Result<RawAnalysis, Error>)
      modifies this
      ensures Snapshot() == Conversation.Conclude(script, old(Snapshot()), topic, d, analysis)
    {
      chatState := ANALYZING;
      var _ := SendZiataMessage(Success(script.analyzing), None);
      calls := calls + [AnalyzeCall(topic, d.questions, userAnswers)];
      var recommendation := Recommendation(script, d, analysis);
      var _ := SendZiataMessage(Success(recommendation), None);
      chatState := ENDED;
      var _ := SendZiataMessage(Success(script.closing), None);
    }

    /** After the rephrase of handleFreeTextSubmit, with the index advanced: the
        next question, or the final step once every question is answered. */
    method NextQuestionOrConclude(topic: string, analysis: Result<RawAnalysis, Error>)
      modifies this
      ensures Snapshot() == Conversation.NextQuestionOrConclude(script, old(Snapshot()), topic, analysis)
    {
      var nextQuestionIndex := currentQuestionIndex;
      match DialogueFor(topic) {
        case None =>
          // reading the questions of an unregistered topic throws
        case Some(d) =>
          if nextQuestionIndex < |d.questions| {
            var _ := SendZiataMessage(Success(d.questions[nextQuestionIndex]), None);
          } else {
            Conclude(topic, d, analysis);
          }
      }
    }

    method HandleFreeTextSubmit(text: string, rephrase: Result<string, Error>, analysis: Result<RawAnalysis, Error>)
      modifies this
      ensures Snapshot() == FreeTextSubmit(script, old(Snapshot()), text, rephrase, analysis)
    {
      AddMessage(text, User, None);
      userAnswers := userAnswers + [text];
      ghost var recorded := Snapshot();
      assert recorded == Conversation.AddMessage(old(Snapshot()), text, User, None).(answers := old(userAnswers) + [text]);
      if currentTopic.None? || currentTopic.value == "" {
        return;
      }
      var topic := currentTopic.value;
      calls := calls + [RephraseCall(text)];
      ghost var called := Snapshot();
      var delivered := SendZiataMessage(rephrase, None);
      if !delivered {
        return;
      }
      currentQuestionIndex := currentQuestionIndex + 1;
      assert Snapshot() == Conversation.SendZiataMessage(called, rephrase.value, None).(index := called.index + 1);
      assert Snapshot() == AfterRephrase(old(Snapshot()), text, rephrase.value);
      FreeTextSubmitSucceeds(script, old(Snapshot()), text, rephrase.value, analysis);
      NextQuestionOrConclude(topic, analysis);
    }

    /** handleSubmit: only a non-blank input, and only while asking questions. */
    method HandleSubmit(userInput: string, rephrase: Result<string, Error>, analysis: Result<RawAnalysis, Error>)
      modifies this
      ensures Snapshot() == Submit(script, old(Snapshot()), userInput, rephrase, analysis)
    {
      var text := Trim(userInput);
      if text != "" && chatState == ASKING_QUESTIONS {
        HandleFreeTextSubmit(text, rephrase, analysis);
      }
    }

    /** handleSubmit corrected: a rejected rephrase is replaced by the fallback
        phrase, so the index still advances with the recorded answer. */
    method HandleSubmitRecovering(userInput: string, rephrase: Result<string, Error>, analysis: Result<RawAnalysis, Error>)
      modifies this
      ensures Snapshot() == SubmitRecovering(script, old(Snapshot()), userInput, rephrase, analysis)
    {
      var reply := if rephrase.Success? then rephrase.value else RephraseFallback;
      HandleSubmit(userInput, Success(reply), analysis);
    }

    method HandleOptionClick(value: string, optionLabel: string, affirm: Result<string, Error>)
      modifies this
      ensures Snapshot() == OptionClick(script, old(Snapshot()), value, optionLabel, affirm)
    {
      if chatState == WELCOME && value == "begin" {
        HandleBegin();
      } else if chatState == TOPIC_SELECTION {
        HandleTopicSelect(value, optionLabel, affirm);
      } else if chatState == ENDED {
        AddMessage(optionLabel, User, None);
        isSessionClosed := true;
        var _ := SendZiataMessage(Success(script.sessionEnded), None);
      }
    }
  }
}
