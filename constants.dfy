/** The static data of the widget (constants.ts): the two seeded messages and
    the dialogue catalog. The question and recommendation texts are long prose;
    they stand here as short distinct placeholders naming their topic, position
    or table cell, since only the shape of the catalog matters to the controller:
    eight questions per topic and a recommendation in every one of the fifteen
    cells of each topic's table. */
module Constants {
  import opened Wrappers
  import opened Types
  import opened Strings

  /** The two assistant messages the transcript starts with. */
  const InitialMessages: seq<Message> := [
    Message(1, "Welcome! I'm Ziata, your Lifestyle and Wellness Assistant. My goal is to help you improve your life with tiny, sustainable changes.", Ziata, None),
    Message(2, "Are you ready to talk to Ziata?", Ziata, None)
  ]

  /** Two assistant messages, numbered 1 and 2, neither offering options. */
  lemma InitialMessagesShape()
    ensures |InitialMessages| == 2
    ensures forall k :: 0 <= k < 2 ==>
      InitialMessages[k].id == k + 1 && InitialMessages[k].sender == Ziata &&
      InitialMessages[k].options == None && InitialMessages[k].text != ""
  {
  }

  const AllSubtypes: set<Subtype> := {BIOLOGY, ENVIRONMENT, CONSISTENCY, EMOTIONAL, COGNITIVE}

  /** Every topic has eight questions. */
  const QuestionCount: nat := 8

  /** The placeholder for question `i` (from 0) of topic `t`. */
  function QuestionText(t: Topic, i: nat): string
  {
    TopicValue(t) + " question " + NatToString(i + 1)
  }

  /** The placeholder for the recommendation in cell (`c`, `s`) of topic `t`'s table. */
  function RecommendationText(t: Topic, c: NeedCategory, s: Subtype): (r: string)
    ensures r != ""
  {
    TopicValue(t) + " " + CategoryName(c) + " " + SubtypeName(s) + " recommendation"
  }

  /** The row of topic `t`'s table for category `c`: one text per subtype. */
  function ResponsesOf(t: Topic, c: NeedCategory): map<Subtype, string>
  {
    map s: Subtype | s in AllSubtypes :: RecommendationText(t, c, s)
  }

  /** `DIALOGUE_FLOW[topic]`: every topic has its dialogue, of exactly eight questions. */
  function DialogueOf(t: Topic): (d: Dialogue)
    ensures |d.questions| == QuestionCount
  {
    Dialogue(seq(QuestionCount, i requires 0 <= i < QuestionCount => QuestionText(t, i)), c => ResponsesOf(t, c))
  }

  /** `DIALOGUE_FLOW[key]` for a raw key: a topic's own value finds that topic's
      dialogue, and every other key finds nothing. */
  function DialogueFor(key: string): (r: Option<Dialogue>)
    ensures forall t: Topic :: key == TopicValue(t) ==> r == Some(DialogueOf(t))
    ensures (forall t: Topic :: key != TopicValue(t)) ==> r == None
  {
    match TopicFromValue(key)
    case Some(t) => Some(DialogueOf(t))
    case None => None
  }

  /** Each topic's table fills all three categories by five subtypes with
      non-empty text, so a lookup with in-range values never misses. */
  lemma ResponsesComplete(t: Topic, c: NeedCategory, s: Subtype)
    ensures Response(DialogueOf(t), c, s).Some?
    ensures Response(DialogueOf(t), c, s).value != ""
  {
    assert s in AllSubtypes by { match s case BIOLOGY => case ENVIRONMENT => case CONSISTENCY => case EMOTIONAL => case COGNITIVE => }
  }

  /** Each topic asks its questions in order: the i-th question names its
      topic and its position, so no two questions of a dialogue coincide. */
  lemma QuestionsDistinct(t: Topic, i: nat, j: nat)
    requires i < QuestionCount && j < QuestionCount && i != j
    ensures DialogueOf(t).questions[i] != DialogueOf(t).questions[j]
  {
    var p := TopicValue(t) + " question ";
    NatToStringInjective(i + 1, j + 1);
    assert DialogueOf(t).questions[i][|p|..] == NatToString(i + 1);
    assert DialogueOf(t).questions[j][|p|..] == NatToString(j + 1);
  }
}
