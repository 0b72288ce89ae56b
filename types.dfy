/** The closed enumerations and records of the chat widget (types.ts). */
module Types {
  import opened Wrappers

  /** Who wrote a message; the source's string enum has exactly these two members. */
  datatype Sender = User | Ziata

  function SenderValue(s: Sender): (r: string)
    ensures r == "user" || r == "ziata"
    ensures (r == "user") <==> s.User?
  {
    match s
    case User => "user"
    case Ziata => "ziata"
  }

  /** A selectable (label, value) pair attached to an assistant message; `label` is a Dafny keyword, so the label is the `caption`. */
  datatype ChoiceOption = ChoiceOption(caption: string, value: string)

  /** One transcript entry; `options` is absent on every message except menus. */
  datatype Message = Message(id: int, text: string, sender: Sender, options: Option<seq<ChoiceOption>>)

  /** The four conversation tracks; the source's enum values are upper-case strings. */
  datatype Topic = Sleep | Exercise | Food | Habit

  const AllTopics: seq<Topic> := [Sleep, Exercise, Food, Habit]

  function TopicValue(t: Topic): string
  {
    match t
    case Sleep => "SLEEP"
    case Exercise => "EXERCISE"
    case Food => "FOOD"
    case Habit => "HABIT"
  }

  /** Reads a raw option value back as a Topic; `None` for any string that is
      not one of the four enum values. */
  function TopicFromValue(v: string): (r: Option<Topic>)
    ensures r.Some? ==> TopicValue(r.value) == v
    ensures r.None? ==> forall t: Topic :: TopicValue(t) != v
  {
    if v == "SLEEP" then Some(Sleep)
    else if v == "EXERCISE" then Some(Exercise)
    else if v == "FOOD" then Some(Food)
    else if v == "HABIT" then Some(Habit)
    else None
  }

  /** The six chat states, declared in the source's order (a numeric enum from 0). */
  datatype ChatState = WELCOME | TOPIC_SELECTION | ASKING_QUESTIONS | ANALYZING | SHOWING_RESULTS | ENDED

  function Ordinal(c: ChatState): nat
  {
    match c
    case WELCOME => 0
    case TOPIC_SELECTION => 1
    case ASKING_QUESTIONS => 2
    case ANALYZING => 3
    case SHOWING_RESULTS => 4
    case ENDED => 5
  }

  /** The enum member with a given numeric value, if any. */
  function StateOfOrdinal(n: int): (r: Option<ChatState>)
    ensures r.Some? <==> 0 <= n < 6
    ensures r.Some? ==> Ordinal(r.value) == n
  {
    if n == 0 then Some(WELCOME)
    else if n == 1 then Some(TOPIC_SELECTION)
    else if n == 2 then Some(ASKING_QUESTIONS)
    else if n == 3 then Some(ANALYZING)
    else if n == 4 then Some(SHOWING_RESULTS)
    else if n == 5 then Some(ENDED)
    else None
  }

  /** The numbering is a bijection between the six states and 0..5. */
  lemma OrdinalBijective(c: ChatState, d: ChatState)
    ensures Ordinal(c) < 6
    ensures StateOfOrdinal(Ordinal(c)) == Some(c)
    ensures Ordinal(c) == Ordinal(d) ==> c == d
  {
  }

  /** Coarse severity tier of a classification. */
  datatype NeedCategory = HIGH | MODERATE | LOW

  /** Root-cause dimension of a classification. */
  datatype Subtype = BIOLOGY | ENVIRONMENT | CONSISTENCY | EMOTIONAL | COGNITIVE

  function CategoryName(c: NeedCategory): string
  {
    match c
    case HIGH => "HIGH"
    case MODERATE => "MODERATE"
    case LOW => "LOW"
  }

  function SubtypeName(s: Subtype): string
  {
    match s
    case BIOLOGY => "BIOLOGY"
    case ENVIRONMENT => "ENVIRONMENT"
    case CONSISTENCY => "CONSISTENCY"
    case EMOTIONAL => "EMOTIONAL"
    case COGNITIVE => "COGNITIVE"
  }

  /** A string is a category exactly when it is one of the three member names. */
  function CategoryFromName(v: string): (r: Option<NeedCategory>)
    ensures r.Some? ==> CategoryName(r.value) == v
    ensures r.None? ==> forall c: NeedCategory :: CategoryName(c) != v
  {
    if v == "HIGH" then Some(HIGH)
    else if v == "MODERATE" then Some(MODERATE)
    else if v == "LOW" then Some(LOW)
    else None
  }

  /** A string is a subtype exactly when it is one of the five member names. */
  function SubtypeFromName(v: string): (r: Option<Subtype>)
    ensures r.Some? ==> SubtypeName(r.value) == v
    ensures r.None? ==> forall s: Subtype :: SubtypeName(s) != v
  {
    if v == "BIOLOGY" then Some(BIOLOGY)
    else if v == "ENVIRONMENT" then Some(ENVIRONMENT)
    else if v == "CONSISTENCY" then Some(CONSISTENCY)
    else if v == "EMOTIONAL" then Some(EMOTIONAL)
    else if v == "COGNITIVE" then Some(COGNITIVE)
    else None
  }

  /** Per-topic dialogue: ordered questions and a recommendation table that is
      total in the category and partial in the subtype. */
  datatype Dialogue = Dialogue(questions: seq<string>, responses: NeedCategory -> map<Subtype, string>)

  /** `responses[category]?.[subtype]`: the table cell, if the subtype has one. */
  function Response(d: Dialogue, c: NeedCategory, s: Subtype): Option<string>
  {
    if s in d.responses(c) then Some(d.responses(c)[s]) else None
  }
}
