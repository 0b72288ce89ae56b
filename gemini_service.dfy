/** The pure parts of the language-model client (services/geminiService.ts):
    transcript formatting, validation of a classification with its default,
    acceptance of the proxy's analysis, extraction of the reply text from a
    proxy response, and the request builders. The network calls themselves
    and `JSON.parse` are not modelled: their outcomes arrive as parameters. */
module GeminiService {
  import opened Wrappers
  import opened Types
  import opened Strings

  /** The errors a call can be rejected with. */
  datatype Error =
    | ProxyError(status: int, body: string)  // the proxy answered with a non-ok status
    | InvalidFormat                          // the reply lacks the candidate/content/text path
    | TypeError                              // a property read on `undefined` along that path
    | SyntaxError                            // the proxy's body is not JSON
    | AnalysisFailed                         // the analysis text is not an object with both keys

  /** What `JSON.parse` made of a model's text, as far as the callers look at it. */
  datatype JsonValue =
    | Unparseable                                                // JSON.parse threw
    | NonObject                                                  // null, a number, a string, an array
    | JsonObject(category: Option<string>, subtype: Option<string>)

  // ---------------------------------------------------------------------
  // Transcript of the direct client (analyzeUserResponses)
  // ---------------------------------------------------------------------

  const NoAnswer := "(No answer provided)"

  /** `answers[i] || '(No answer provided)'`: a missing or empty answer reads as the placeholder. */
  function AnswerOrDefault(answers: seq<string>, i: nat): (a: string)
    ensures a != ""
    ensures i < |answers| && answers[i] != "" ==> a == answers[i]
    ensures i >= |answers| || answers[i] == "" ==> a == NoAnswer
  {
    if i < |answers| && answers[i] != "" then answers[i] else NoAnswer
  }

  function HistoryBlock(q: string, a: string): string
  {
    "Q: " + q + "\nA: " + a
  }

  function HistoryBlocks(questions: seq<string>, answers: seq<string>): seq<string>
  {
    seq(|questions|, i requires 0 <= i < |questions| => HistoryBlock(questions[i], AnswerOrDefault(answers, i)))
  }

  /** The conversation history sent for classification: one block per question, joined by a blank line. */
  function ConversationHistory(questions: seq<string>, answers: seq<string>): string
  {
    Join(HistoryBlocks(questions, answers), "\n\n")
  }

  /** A further question adds a blank line and its own block, in question order. */
  lemma HistorySnoc(questions: seq<string>, q: string, answers: seq<string>)
    ensures ConversationHistory(questions + [q], answers)
      == if questions == [] then HistoryBlock(q, AnswerOrDefault(answers, 0))
         else ConversationHistory(questions, answers) + "\n\n" + HistoryBlock(q, AnswerOrDefault(answers, |questions|))
  {
    assert HistoryBlocks(questions + [q], answers)
      == HistoryBlocks(questions, answers) + [HistoryBlock(q, AnswerOrDefault(answers, |questions|))];
    JoinSnoc(HistoryBlocks(questions, answers), HistoryBlock(q, AnswerOrDefault(answers, |questions|)), "\n\n");
  }

  /** The history opens with the first question and its answer (or the placeholder). */
  lemma HistoryStartsWithFirstQuestion(questions: seq<string>, answers: seq<string>)
    requires questions != []
    ensures var first := HistoryBlock(questions[0], AnswerOrDefault(answers, 0));
      var h := ConversationHistory(questions, answers);
      |first| <= |h| && h[..|first|] == first
  {
    JoinStartsWithFirst(HistoryBlocks(questions, answers), "\n\n");
  }

  /** An answer that is missing and one that is empty are rendered alike. */
  lemma HistoryMissingEqualsEmpty(questions: seq<string>, answers: seq<string>)
    ensures ConversationHistory(questions, answers) == ConversationHistory(questions, answers + [""])
  {
    assert HistoryBlocks(questions, answers) == HistoryBlocks(questions, answers + [""]);
  }

  // ---------------------------------------------------------------------
  // Context of the proxy client (analyzeUserResponsesProxy)
  // ---------------------------------------------------------------------

  /** `${answers[i]}`: a missing answer renders as the word undefined; an empty one stays empty. */
  function RawAnswer(answers: seq<string>, i: nat): (a: string)
    ensures i < |answers| ==> a == answers[i]
    ensures i >= |answers| ==> a == "undefined"
  {
    if i < |answers| then answers[i] else "undefined"
  }

  /** The label `Q<n>: ` that opens block `i`, numbered from 1. */
  function ContextLabel(i: nat): string
  {
    "Q" + NatToString(i + 1) + ": "
  }

  function ContextBlock(i: nat, q: string, a: string): string
  {
    ContextLabel(i) + q + "\nA" + NatToString(i + 1) + ": " + a
  }

  function ContextBlocks(questions: seq<string>, answers: seq<string>): seq<string>
  {
    seq(|questions|, i requires 0 <= i < |questions| => ContextBlock(i, questions[i], RawAnswer(answers, i)))
  }

  /** The numbered context embedded in the proxy's analysis prompt. */
  function ProxyContext(questions: seq<string>, answers: seq<string>): string
  {
    Join(ContextBlocks(questions, answers), "\n\n")
  }

  /** A further question adds a blank line and a block numbered one past the previous count. */
  lemma ContextSnoc(questions: seq<string>, q: string, answers: seq<string>)
    ensures ProxyContext(questions + [q], answers)
      == if questions == [] then ContextBlock(0, q, RawAnswer(answers, 0))
         else ProxyContext(questions, answers) + "\n\n" + ContextBlock(|questions|, q, RawAnswer(answers, |questions|))
  {
    assert ContextBlocks(questions + [q], answers)
      == ContextBlocks(questions, answers) + [ContextBlock(|questions|, q, RawAnswer(answers, |questions|))];
    JoinSnoc(ContextBlocks(questions, answers), ContextBlock(|questions|, q, RawAnswer(answers, |questions|)), "\n\n");
  }

  /** Numbering starts at 1: the context opens with "Q1: " and the first question. */
  lemma ContextStartsWithQ1(questions: seq<string>, answers: seq<string>)
    requires questions != []
    ensures var head := "Q1: " + questions[0];
      var c := ProxyContext(questions, answers);
      |head| <= |c| && c[..|head|] == head
  {
    var blocks := ContextBlocks(questions, answers);
    var head := "Q1: " + questions[0];
    JoinStartsWithFirst(blocks, "\n\n");
    assert NatToString(1) == "1";
    assert blocks[0] == head + ("\nA1: " + RawAnswer(answers, 0));
    var c := ProxyContext(questions, answers);
    assert c[..|head|] == c[..|blocks[0]|][..|head|];
  }

  /** Each block opens with its own label and with no other block's label, so a
      label names exactly one question of the context. */
  lemma ContextLabelsDistinct(questions: seq<string>, answers: seq<string>, i: nat, j: nat)
    requires i < |questions| && j < |questions| && i != j
    ensures ContextLabel(i) <= ContextBlocks(questions, answers)[i]
    ensures !(ContextLabel(i) <= ContextBlocks(questions, answers)[j])
  {
    var blocks := ContextBlocks(questions, answers);
    var a, b := NatToString(i + 1), NatToString(j + 1);
    var li, lj := ContextLabel(i), ContextLabel(j);
    assert blocks[i] == li + (questions[i] + "\nA" + a + ": " + RawAnswer(answers, i));
    assert blocks[j] == lj + (questions[j] + "\nA" + b + ": " + RawAnswer(answers, j));
    if |li| <= |blocks[j]| {
      if |a| == |b| {
        NatToStringInjective(i + 1, j + 1);
        var k :| 0 <= k < |a| && a[k] != b[k];
        assert li[1 + k] == a[k] && blocks[j][1 + k] == b[k];
      } else if |a| < |b| {
        assert li[1 + |a|] == ':' && blocks[j][1 + |a|] == b[|a|];
      } else {
        assert li[1 + |b|] == a[|b|] && blocks[j][1 + |b|] == ':';
      }
    }
  }

  // ---------------------------------------------------------------------
  // Classification of the direct client, with its fallback
  // ---------------------------------------------------------------------

  datatype Classification = Classification(category: NeedCategory, subtype: Subtype)

  const DefaultClassification := Classification(MODERATE, CONSISTENCY)

  /** The two lists the validation checks membership in. */
  const CategoryNames: set<string> := {"HIGH", "MODERATE", "LOW"}
  const SubtypeNames: set<string> := {"BIOLOGY", "ENVIRONMENT", "CONSISTENCY", "EMOTIONAL", "COGNITIVE"}

  /** The result of analyzeUserResponses given the model call's outcome (`reply`, its
      `response.text`) and what JSON.parse made of that text: the parsed pair itself
      when both fields name enum members, MODERATE/CONSISTENCY in every other case
      (failed call, empty text, unparseable or incomplete object, unknown names). */
  function AnalyzeUserResponses(reply: Result<string, Error>, parsed: JsonValue): (r: Classification)
    ensures
      (reply.Success? && reply.value != "" && parsed.JsonObject?
       && parsed.category.Some? && parsed.category.value in CategoryNames
       && parsed.subtype.Some? && parsed.subtype.value in SubtypeNames)
      ==> CategoryName(r.category) == parsed.category.value && SubtypeName(r.subtype) == parsed.subtype.value
    ensures
      !(reply.Success? && reply.value != "" && parsed.JsonObject?
        && parsed.category.Some? && parsed.category.value in CategoryNames
        && parsed.subtype.Some? && parsed.subtype.value in SubtypeNames)
      ==> r == DefaultClassification
  {
    if reply.Failure? || reply.value == "" then DefaultClassification
    else match parsed
      case JsonObject(Some(c), Some(s)) =>
        (match (CategoryFromName(c), SubtypeFromName(s))
         case (Some(nc), Some(ns)) => Classification(nc, ns)
         case _ => DefaultClassification)
      case _ => DefaultClassification
  }

  // ---------------------------------------------------------------------
  // Analysis through the proxy
  // ---------------------------------------------------------------------

  /** The proxy's analysis keeps whatever strings the model returned. */
  datatype RawAnalysis = RawAnalysis(category: string, subtype: string)

  /** analyzeUserResponsesProxy after the proxy call: a failed call propagates its
      error; otherwise the parsed text is accepted exactly when it is an object with
      a non-empty `category` and a non-empty `subtype`, with no check against the
      enumerations. */
  function AnalyzeUserResponsesProxy(reply: Result<string, Error>, parsed: JsonValue): (r: Result<RawAnalysis, Error>)
    ensures reply.Failure? ==> r == Failure(reply.error)
    ensures reply.Success? ==>
      (r.Success? <==> parsed.JsonObject? && parsed.category.Some? && parsed.category.value != ""
                       && parsed.subtype.Some? && parsed.subtype.value != "")
    ensures reply.Success? && r.Failure? ==> r.error == AnalysisFailed
    ensures r.Success? ==> r.value.category == parsed.category.value && r.value.subtype == parsed.subtype.value
  {
    match reply
    case Failure(e) => Failure(e)
    case Success(_) =>
      match parsed
      case JsonObject(Some(c), Some(s)) =>
        if c != "" && s != "" then Success(RawAnalysis(c, s)) else Failure(AnalysisFailed)
      case _ => Failure(AnalysisFailed)
  }

  /** The pair the proxy prompt itself gives as an example output passes the proxy's
      check although neither string names an enum member. */
  lemma ProxyAcceptsNamesOutsideEnums(reply: string)
    ensures var r := AnalyzeUserResponsesProxy(Success(reply), JsonObject(Some("Consistency"), Some("Schedule")));
      r.Success? && r.value.category !in CategoryNames && r.value.subtype !in SubtypeNames
  {
  }

  // ---------------------------------------------------------------------
  // Reply extraction (sendToGeminiProxy)
  // ---------------------------------------------------------------------

  datatype Part = Part(text: Option<string>)
  datatype Content = Content(parts: Option<seq<Part>>)
  datatype Candidate = Candidate(content: Option<Content>)
  datatype ResponseBody = NotJson | Body(candidates: Option<seq<Candidate>>)

  /** What the proxy's HTTP response offers: its ok flag and status, its raw text
      (read only on failure) and its body as JSON. */
  datatype ProxyResponse = ProxyResponse(ok: bool, status: int, bodyText: string, body: ResponseBody)

  /** `candidates?.[0]?.content?.parts?.[0]?.text`, the path the reply lives at. */
  function ReplyPath(b: ResponseBody): Option<string>
  {
    if b.NotJson? || b.candidates.None? || |b.candidates.value| == 0 then None
    else
      var c := b.candidates.value[0];
      if c.content.None? || c.content.value.parts.None? || |c.content.value.parts.value| == 0 then None
      else c.content.value.parts.value[0].text
  }

  /** sendToGeminiProxy once the response is in: the text at the reply path when the
      status is ok and that text is non-empty; otherwise the call is rejected. */
  function SendToGeminiProxy(resp: ProxyResponse): (r: Result<string, Error>)
    ensures r.Success? <==> resp.ok && ReplyPath(resp.body).Some? && ReplyPath(resp.body).value != ""
    ensures r.Success? ==> r.value == ReplyPath(resp.body).value
    ensures !resp.ok ==> r == Failure(ProxyError(resp.status, resp.bodyText))
  {
    if !resp.ok then Failure(ProxyError(resp.status, resp.bodyText))
    else match resp.body
      case NotJson => Failure(SyntaxError)
      case Body(cands) =>
        if cands.None? || |cands.value| == 0 then Failure(InvalidFormat)
        else
          var content := cands.value[0].content;
          if content.None? then Failure(InvalidFormat)
          else if content.value.parts.None? || |content.value.parts.value| == 0 then Failure(TypeError)
          else
            var t := content.value.parts.value[0].text;
            if t.None? || t.value == "" then Failure(InvalidFormat) else Success(t.value)
  }

  /** A well-formed 200 response carrying `text` as its single candidate's single part. */
  function ReplyResponse(text: string): ProxyResponse
  {
    ProxyResponse(true, 200, "", Body(Some([Candidate(Some(Content(Some([Part(Some(text))]))))])))
  }

  /** Extraction recovers exactly the text a well-formed response carries. */
  lemma ReplyRoundTrip(text: string)
    requires text != ""
    ensures SendToGeminiProxy(ReplyResponse(text)) == Success(text)
  {
  }

  // ---------------------------------------------------------------------
  // Requests
  // ---------------------------------------------------------------------

  datatype Role = UserRole | ModelRole

  /** One entry of the request's `contents`: a role and the texts of its parts. */
  datatype GeminiContent = GeminiContent(role: Role, parts: seq<string>)

  /** The text between a known prefix and suffix, if `s` has that frame. */
  function Unframe(s: string, prefix: string, suffix: string): Option<string>
  {
    if |prefix| + |suffix| <= |s| && s[..|prefix|] == prefix && s[|s| - |suffix|..] == suffix
    then Some(s[|prefix|..|s| - |suffix|])
    else None
  }

  lemma UnframeFrame(prefix: string, x: string, suffix: string)
    ensures Unframe(prefix + x + suffix, prefix, suffix) == Some(x)
  {
    var s := prefix + x + suffix;
    assert s[..|prefix|] == prefix;
    assert s[|s| - |suffix|..] == suffix;
    assert s[|prefix|..|s| - |suffix|] == x;
  }

  /** A single user-role content with one part. */
  function UserPrompt(prompt: string): seq<GeminiContent>
  {
    [GeminiContent(UserRole, [prompt])]
  }

  const AffirmPrefix := "Affirm the user's topic selection of '"
  const AffirmSuffix := "' with a brief, encouraging, and enthusiastic statement. Do not use markdown."

  /** The request of affirmTopicSelectionProxy: the label sits verbatim inside a fixed template. */
  function AffirmTopicSelectionRequest(topicLabel: string): (r: seq<GeminiContent>)
    ensures |r| == 1 && r[0].role == UserRole && |r[0].parts| == 1
    ensures Unframe(r[0].parts[0], AffirmPrefix, AffirmSuffix) == Some(topicLabel)
  {
    UnframeFrame(AffirmPrefix, topicLabel, AffirmSuffix);
    UserPrompt(AffirmPrefix + topicLabel + AffirmSuffix)
  }

  const RephrasePrefix := "Rephrase the following user statement for clarity, but frame it as a short, reflective, follow-up question. Original statement: \""
  const RephraseSuffix := "\""

  /** The request of rephraseUserStatementProxy: the text sits verbatim inside a fixed template. */
  function RephraseUserStatementRequest(text: string): (r: seq<GeminiContent>)
    ensures |r| == 1 && r[0].role == UserRole && |r[0].parts| == 1
    ensures Unframe(r[0].parts[0], RephrasePrefix, RephraseSuffix) == Some(text)
  {
    UnframeFrame(RephrasePrefix, text, RephraseSuffix);
    UserPrompt(RephrasePrefix + text + RephraseSuffix)
  }

  const AnalysisOpening := "Analyze the user's responses for the topic \""
  const AnalysisInstructions := "\". Based on the context provided below, determine the most relevant 'category' and 'subtype' of issue. The output MUST be a strict JSON object with only two keys: 'category' (string) and 'subtype' (string). Do NOT include any other text, explanation, or markdown formatting (e.g., no ```json).\n\n    Context:\n    "
  const AnalysisClosing := "\n\n    Example Output: {\"category\": \"Consistency\", \"subtype\": \"Schedule\"}\n    "

  /** The request of analyzeUserResponsesProxy: the numbered context sits verbatim
      inside a template that names the topic. */
  function AnalyzeUserResponsesRequest(topic: string, questions: seq<string>, answers: seq<string>): (r: seq<GeminiContent>)
    ensures |r| == 1 && r[0].role == UserRole && |r[0].parts| == 1
    ensures Unframe(r[0].parts[0], AnalysisOpening + topic + AnalysisInstructions, AnalysisClosing)
      == Some(ProxyContext(questions, answers))
  {
    UnframeFrame(AnalysisOpening + topic + AnalysisInstructions, ProxyContext(questions, answers), AnalysisClosing);
    UserPrompt(AnalysisOpening + topic + AnalysisInstructions + ProxyContext(questions, answers) + AnalysisClosing)
  }

  /** The three proxy calls the controller makes, with their arguments. */
  datatype ServiceCall =
    | AffirmCall(topicLabel: string)
    | RephraseCall(text: string)
    | AnalyzeCall(topic: string, questions: seq<string>, answers: seq<string>)
}
