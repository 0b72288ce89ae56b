# Ziata conversation controller in Dafny

Ziata is a chat widget that leads a user through a short wellness conversation:
- a Begin click;
- a topic chosen from a menu of four;
- eight questions, each free-text answer echoed back as a rephrased question by a language model;
- a classification of the answers into a need category and a subtype;
- the matching recommendation from a fixed table;
- a closing message.

This project models the widget's conversation controller (`App.tsx`), the pure parts of its language-model client (`services/geminiService.ts`), and its static data and types (`constants.ts`, `types.ts`). It proves what the controller guarantees:
- the exact messages each handler adds;
- the submit guard;
- the option-click dispatch;
- the three outcomes of the recommendation step;
- an invariant every reachable session keeps;
- that answering every question ends the conversation with one answer per question.

Modules:
- `Wrappers`: `Option` and `Result`. A `Result` stands for a promise that resolves or rejects.
- `Types` (`types.ts`): the enums and records.
- `Strings`: the JavaScript string operations the code relies on (`trim`, `join`, the decimal rendering of a number in a template literal).
- `Constants` (`constants.ts`): the two seeded messages and the dialogue catalog. Every topic has eight questions and a full 3×5 recommendation table. The long question and recommendation texts are replaced by short distinct placeholders.
- `GeminiService` (`services/geminiService.ts`):
  - the transcript and context formats;
  - the classification check with its MODERATE/CONSISTENCY default;
  - the proxy's analysis check;
  - reply extraction;
  - the three request builders.
- `Conversation`: the controller's state as a value (`Session`) and every handler as a function from the session before to the session after. The outcomes of the three proxy calls are parameters. The six fixed lines the controller sends are a `Script` value. `ZiataScript` holds the widget's own lines, so what is proved holds for any wording.
- `ConversationProperties`: the lemmas about those transitions, and the corrected submission described under Findings.
- `App`: class `Controller`.
  - Its fields are the component's state and refs.
  - Each method updates them step by step, as the handler does.
  - Each method is proved to perform exactly the transition of the same name in `Conversation`, so every lemma about the transitions holds of the controller.

Behaviour of the code worth knowing, which the model keeps:
- **Topic selection does not reset the index and the answers.** `TopicSelectStartsFresh` and `ReachableInv` show this is harmless: topic selection is only reachable before any question, when the index is 0 and there are no answers.
- **The user's message on topic selection reads "I'd like to discuss: <label>".**
- **A rejected affirmation or rephrase is not caught.** The handler stops with the typing indicator on, though the service's comments leave catching to the caller (services/geminiService.ts:143, 193). App.tsx catches only the analysis's rejection. The rephrase case is listed under Findings.
- **A click on any option chip in the ENDED state echoes its label and the end message again.** This happens closed or not, since chips are never disabled. So a repeated click is not idempotent there.
- **The proxy's analysis accepts any non-empty strings, with no enum check** (`ProxyAcceptsNamesOutsideEnums`). An out-of-enum pair therefore yields the lookup-miss line, not the default pair.
- **SHOWING_RESULTS is never entered** (`ReachableInv`).

## Model

| member | source | states |
|---|---|---|
| Types.SenderValue | types.ts:2-5 | a sender's string value is "user" or "ziata", and it is "user" exactly for the user |
| Types.TopicFromValue | types.ts:14-19 | a raw value reads back as the topic whose value it is; `None` means no topic has that value |
| Types.StateOfOrdinal | types.ts:21-28 | a number names a chat state exactly when it is 0..5, and then that state's ordinal is the number |
| Types.OrdinalBijective | types.ts:21-28 | the declaration-order numbering of the six states is a bijection onto 0..5 |
| Types.CategoryFromName | types.ts:30 | a string reads back as the category it names; `None` means no category has that name |
| Types.SubtypeFromName | types.ts:31 | a string reads back as the subtype it names; `None` means no subtype has that name |
| Strings.TrimStartSpec | App.tsx:139 | leading trim leaves a suffix that starts with non-whitespace and drops only whitespace |
| Strings.TrimEndSpec | App.tsx:139 | trailing trim leaves a prefix that ends with non-whitespace and drops only whitespace |
| Strings.TrimSpec | App.tsx:139-140 | `trim()` is the slice between the first and last non-whitespace characters, empty exactly for a blank input |
| Strings.TrimIdempotent | App.tsx:139-140 | trimming the trimmed input changes nothing |
| Strings.JoinCons | services/geminiService.ts:33-35 | read from the front, a join is the first part, the separator, then the join of the rest |
| Strings.JoinStartsWithFirst | services/geminiService.ts:33-35 | a join of at least one part begins with the first part |
| Strings.DigitChar | services/geminiService.ts:170 | the character of a decimal digit is that digit |
| Strings.NatToString | services/geminiService.ts:170 | a number's numeral is a non-empty string of digits without a leading zero |
| Strings.NatToStringRoundTrip | services/geminiService.ts:170 | a numeral reads back as its number |
| Strings.NatToStringInjective | services/geminiService.ts:170 | distinct numbers have distinct numerals |
| Constants.InitialMessagesShape | constants.ts:3-14 | the transcript starts with two non-empty assistant messages numbered 1 and 2, neither offering options |
| Constants.RecommendationText | constants.ts:28-50 | every recommendation cell is non-empty |
| Constants.DialogueOf | constants.ts:18-27 | every topic's dialogue has exactly eight questions |
| Constants.DialogueFor | constants.ts:16-157 | a topic's own value finds exactly that topic's dialogue, and any key that is no topic's value finds none |
| Constants.ResponsesComplete | constants.ts:28-50 | every (category, subtype) cell of every topic's table is present and non-empty |
| Constants.QuestionsDistinct | constants.ts:18-27 | no two questions of a dialogue coincide |
| GeminiService.AnswerOrDefault | services/geminiService.ts:34 | a missing or empty answer reads as "(No answer provided)", any other as itself |
| GeminiService.HistorySnoc | services/geminiService.ts:33-35 | a further question adds a blank line and its own "Q: …\nA: …" block, in question order |
| GeminiService.HistoryStartsWithFirstQuestion | services/geminiService.ts:33-35 | the history opens with the first question's block |
| GeminiService.HistoryMissingEqualsEmpty | services/geminiService.ts:34 | a missing and an empty answer render alike |
| GeminiService.ContextSnoc | services/geminiService.ts:170 | a further question adds a blank line and a block numbered one past the previous count |
| GeminiService.ContextStartsWithQ1 | services/geminiService.ts:170 | numbering starts at 1: the context opens with "Q1: " and the first question |
| GeminiService.ContextLabelsDistinct | services/geminiService.ts:170 | each context block opens with its own "Q<n>: " label and no block opens with another block's label |
| GeminiService.AnalyzeUserResponses | services/geminiService.ts:71-88 | the parsed pair when the call gave text and both names are enum members, MODERATE/CONSISTENCY in every other case |
| GeminiService.AnalyzeUserResponsesProxy | services/geminiService.ts:182-195 | a rejected call propagates; otherwise accepted exactly when both fields are present and non-empty, keeping the strings as given |
| GeminiService.ProxyAcceptsNamesOutsideEnums | services/geminiService.ts:177-189 | the prompt's own example pair passes the proxy's check although it names no enum member |
| GeminiService.SendToGeminiProxy | services/geminiService.ts:126-141 | resolves exactly when the status is ok and the reply path holds non-empty text, with that text; a non-ok status rejects with status and body |
| GeminiService.ReplyRoundTrip | services/geminiService.ts:136-137 | extraction recovers the text a well-formed response carries |
| GeminiService.AffirmTopicSelectionRequest | services/geminiService.ts:150-155 | one user-role content with one part in which the label sits verbatim in the fixed template |
| GeminiService.RephraseUserStatementRequest | services/geminiService.ts:159-164 | one user-role content with one part in which the text sits verbatim in the fixed template |
| GeminiService.AnalyzeUserResponsesRequest | services/geminiService.ts:168-180 | one user-role content with one part in which the numbered context sits verbatim in a template naming the topic |
| Conversation.ZiataScriptFilled | App.tsx:62-133 | none of the controller's six fixed lines is empty |
| Conversation.RemainingTime | App.tsx:40-47 | the wait is never negative, is zero exactly when 750 ms have already elapsed, and otherwise brings the total to exactly 750 ms |
| Conversation.RevealTime | App.tsx:39-55 | a message appears no earlier than 750 ms after the send started and no earlier than its text is ready, with no extra wait once the text took 750 ms or more; this holds for any measured elapsed time, negative ones from a clock stepping back included |
| Conversation.AddMessage | App.tsx:29-37 | exactly one message is appended at the end, earlier messages and the rest of the state unchanged |
| Conversation.RecommendationCases | App.tsx:104-116 | the recommendation is the error line on a rejected analysis, the lookup-miss line for names outside the enums or an empty cell, the cell's text otherwise; never empty |
| ConversationProperties.AddMessageFacts | App.tsx:29-37 | the transcript grows by exactly (sender, text), keeps numbering by position, and nothing else changes |
| ConversationProperties.SendFacts | App.tsx:39-55 | a delivered send adds exactly one assistant line and leaves the typing indicator off |
| ConversationProperties.BeginTranscript | App.tsx:58-70 | Begin adds "Begin" then the prompt carrying the topic menu, and moves to TOPIC_SELECTION; nothing else changes |
| ConversationProperties.TopicMenuOffersEveryTopic | App.tsx:63-68 | the menu has four options, SLEEP, EXERCISE, FOOD and HABIT in order, each reading back as its topic, and every topic is offered |
| ConversationProperties.TopicSelectTranscript | App.tsx:72-80 | the choice, the affirmation, then the first question; topic set, state ASKING_QUESTIONS, index and answers untouched, one affirmation call |
| ConversationProperties.TopicSelectAffirmRejected | App.tsx:72-76 | a rejected affirmation leaves only the user's choice, the topic set, the state as it was and the indicator on |
| ConversationProperties.ConcludeTranscript | App.tsx:100-121 | the final step adds the analysing line, exactly one recommendation and the closing line, ends in ENDED, and sends every question with every answer |
| ConversationProperties.AfterRephraseFacts | App.tsx:82-93 | an answer with its rephrase adds the user's text and the rephrase, records the answer and advances the index by one |
| ConversationProperties.FreeTextSubmitRecords | App.tsx:82-88 | every submission first records the text as the user's message and as the next answer |
| ConversationProperties.SubmitGuard | App.tsx:137-142 | the session changes exactly when the trimmed input is non-empty while asking, and then the trimmed text is what is recorded |
| ConversationProperties.NonFinalSubmitTranscript | App.tsx:82-99 | a non-final answer adds the text, the rephrase, then the next question; index and answers stay in lockstep below the question count |
| ConversationProperties.FinalSubmitTranscript | App.tsx:82-121 | the last answer adds the text, the rephrase, the analysing line, one recommendation and the closing line, ends in ENDED, and analyses every answer |
| ConversationProperties.RephraseRejected | App.tsx:82-91 | a rejected rephrase records the answer but does not advance the index, adds only the user's text and leaves the indicator on |
| ConversationProperties.CatalogLookupNeverMisses | App.tsx:105-109 | with the catalog, an analysis naming any category and subtype gets that cell's recommendation |
| ConversationProperties.EchoAndCloseTranscript | App.tsx:130-133 | a click after the end echoes the label, closes the session and adds the end message |
| ConversationProperties.OptionClickDispatch | App.tsx:125-135 | clicks dispatch on the state alone: begin from WELCOME on "begin", topic selection from TOPIC_SELECTION, echo-and-close from ENDED, nothing otherwise |
| ConversationProperties.InitialInv | App.tsx:10-18 | the initial session keeps the invariant |
| ConversationProperties.TopicSelectKeepsInv | App.tsx:72-80 | topic selection keeps the invariant and only appends to the transcript |
| ConversationProperties.NextQuestionOrConcludeKeepsInv | App.tsx:93-121 | the next question or the final step keeps the invariant |
| ConversationProperties.FreeTextSubmitKeepsInv | App.tsx:82-123 | a free-text submission keeps the invariant and only appends to the transcript |
| ConversationProperties.StepKeepsInv | App.tsx:125-186 | every click, button and form submission keeps the invariant and only appends |
| ConversationProperties.RunKeepsInv | App.tsx:125-186 | any sequence of events keeps the invariant, and the transcript only grows |
| ConversationProperties.ReachableInv | App.tsx:9-186 | in every reachable session the messages are numbered by position behind the two seeded ones, SHOWING_RESULTS and ANALYZING never hold between events, only an ended session is closed, the index never exceeds the answers, and an ended session asked every question |
| ConversationProperties.TopicSelectStartsFresh | App.tsx:72-80 | from any reachable TOPIC_SELECTION session the first question is asked with index 0 and no answers |
| ConversationProperties.SubmitAdvances | App.tsx:82-142 | an accepted answer in lockstep advances the index with the answers; past the last question the session is ENDED with the analysis call last |
| ConversationProperties.AnswerAllEnds | App.tsx:82-142 | answering every remaining question ends the conversation with exactly the trimmed inputs as answers, one per question, all sent to the analysis |
| ConversationProperties.RephraseRejectionBreaksLockstep | App.tsx:82-93 | as written, a rejected rephrase followed by a resubmission records the answer twice and asks the next question, so each later answer sits one slot after its question |
| ConversationProperties.SubmitRecoveringKeepsLockstep | App.tsx:82-99 | with the fallback phrase, an accepted answer advances the index with the answers whatever the rephrase call did |
| ConversationProperties.AnswerAllRecoveringIsAnswerAll | App.tsx:82-99 | the corrected conversation is the as-written one fed the fallback phrase for every rejected rephrase |
| ConversationProperties.RecoveringAlwaysEnds | App.tsx:82-121 | with the correction the conversation ends after one answer per question even if every rephrase call is rejected |
| App.Controller.constructor | App.tsx:10-18 | the widget starts with the two seeded messages, WELCOME, no topic, index 0, no answers, not typing, not closed |
| App.Controller.AddMessage | App.tsx:29-37 | the controller's state after addMessage is the `AddMessage` transition of the state before |
| App.Controller.SendZiataMessage | App.tsx:39-55 | a resolved action adds its text as one assistant message with the indicator off; a rejected one leaves the indicator on and reports it |
| App.Controller.HandleBegin | App.tsx:58-70 | performs exactly the `Begin` transition |
| App.Controller.HandleTopicSelect | App.tsx:72-80 | performs exactly the `TopicSelect` transition |
| App.Controller.Conclude | App.tsx:100-121 | performs exactly the final step |
| App.Controller.NextQuestionOrConclude | App.tsx:93-122 | performs exactly the step after the rephrase |
| App.Controller.HandleFreeTextSubmit | App.tsx:82-123 | performs exactly the `FreeTextSubmit` transition |
| App.Controller.HandleSubmit | App.tsx:137-142 | performs exactly the `Submit` transition, hence the submit guard |
| App.Controller.HandleSubmitRecovering | App.tsx:137-142 | performs exactly the corrected submission |
| App.Controller.HandleOptionClick | App.tsx:125-135 | performs exactly the `OptionClick` transition |

## Left out

- Network calls, `fetch`, `JSON.parse`, the direct model client's API call and its system instruction: their outcomes are parameters (`Result` values, `JsonValue`).
- The proxy servers (`proxy.php`, `server.js`, `backend/`), rendering components, mounting and build configuration: I/O and presentation with no controller logic.
- Message ids: the source uses `Date.now() + Math.random()`. The model numbers each message by its position, which keeps ids distinct and ordered as the source's do in practice.
- Clock and timers: `sendZiataMessage`'s wait is modelled as arithmetic (`RemainingTime`, `RevealTime`). The handlers treat each send as instantaneous.
- Async interleaving: clicks or submissions while a handler awaits, and React state batching. Each handler is one atomic step, and the source does not guard against re-entrancy.
- Clearing the input field (`setUserInput('')`), scrolling and console logging: no effect on the conversation state.
- The wording of the questions and recommendations: placeholders that keep the catalog's shape.
- Property names that reach `Object.prototype` (a category named `toString`, say): the model's lookup only knows the table's own keys.
- Non-string JSON fields in the analysis result: `JsonValue` carries strings or absence only.
- Strings.IsJsWhitespace: the set of code points `trim` removes is transcribed from ECMAScript. JavaScript strings are sequences of UTF-16 code units and may hold lone surrogates, while the model's strings are sequences of Unicode scalar values. Trimming is unaffected, because every whitespace code point lies in the basic plane.
- ConversationProperties.ReachableInv: the footer's Begin button is taken to fire only in WELCOME, and its End Session button only in ENDED before closing, as the footer renders them; the model does not cover a click on a button that is no longer rendered.

## Findings

| source | as written | input that shows it | evidently intended | confidence | as-written member | corrected member |
|---|---|---|---|---|---|---|
| App.tsx:82-93 | the answer is recorded before the rephrase call; when that call rejects, the handler stops with the answer recorded, the index not advanced and the typing indicator on | a session asking question k with k answers whose rephrase call rejects, followed by resubmitting the same text: the answers hold that text twice, the next question shown is k+1, and every later answer is stored one slot after its question | the rejection is caught in App.tsx, as the service's comments at services/geminiService.ts:143 and 193 expect and as App.tsx:113-116 already does for the analysis. The handler goes on with a fallback line ("Thank you for sharing that.") in place of the rephrase, so each answer stays with its question | not executed | ConversationProperties.RephraseRejectionBreaksLockstep | ConversationProperties.RecoveringAlwaysEnds |
