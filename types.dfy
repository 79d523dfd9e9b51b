/** The records of the study design (nsfStudy2/nsfStudy2.types.ts) and of the synthetic
    event log (nsfStudy2/simulateStudy.types.ts). Optional TypeScript fields (`?:`) are
    `Option`s; a literal-union string type whose values the code compares is an enumeration
    with its `Label()`. */
module StudyTypes {
  import opened Wrappers

  /** A multiple-choice option; `letter` is the `label` field ("a" to "d"). */
  datatype Choice = Choice(letter: string, text: string)

  /** `answerKey: string | boolean`. */
  datatype AnswerKey = TextKey(text: string) | FlagKey(flag: bool)
  {
    /** `answerKey.toString()`. */
    function ToString(): string
    {
      match this
      case TextKey(t) => t
      case FlagKey(b) => if b then "true" else "false"
    }
  }

  datatype Spacing = Wide | Narrow
  {
    function Label(): string { if Wide? then "wide" else "narrow" }
  }

  datatype Variability = High | Low
  {
    function Label(): string { if High? then "high" else "low" }
  }

  datatype Condition = Condition(spacing: Spacing, variability: Variability)

  /** A question. `qtype` is kept as the string the record carries: the placeholder bank
      writes the long labels ("Multiple Choice", ...), while the type declaration and the
      simulator use the short codes ("mcq", ...). */
  datatype Question = Question(
    id: string,
    qtype: string,
    stem: string,
    choices: Option<seq<Choice>>,
    answerKey: AnswerKey,
    lo: string,
    condition: Option<Condition>)

  datatype QuestionSet = QuestionSet(questions: seq<Question>)

  /** A set of 4 questions presented together; `blockNumber` is 1, 2 or 3. */
  datatype QuestionBlock = QuestionBlock(questions: seq<Question>, blockNumber: nat)

  datatype PretestPhase = PretestPhase(
    questionSet1: Question,
    randomQuestionSet: Question,
    selectedPretestSetNumber: int)

  datatype PosttestPhase = PosttestPhase(questionSet6: Question, matchingPretest: Question)

  /** The post-posttest pair that the calendar builder reads; `PhaseSequence` carries it
      as an optional part because the generator does not produce it. */
  datatype PostposttestPhase = PostposttestPhase(questionSet7: Question, matchingPretest: Question)

  /** `PhaseSequence`, with `learning.blocks` written as `blocks`. */
  datatype PhaseSequence = PhaseSequence(
    pretest: PretestPhase,
    blocks: seq<QuestionBlock>,
    posttest: PosttestPhase,
    postposttest: Option<PostposttestPhase>)

  datatype LearningObjective = LearningObjective(
    loNumber: nat,
    condition: Option<Condition>,
    sets: Option<seq<QuestionSet>>,
    sequence: Option<PhaseSequence>)

  /** `Assignment["type"]`, including the "postposttest" value the builder uses. */
  datatype AssignmentType = PretestType | LearningType | PosttestType | PostposttestType
  {
    function Label(): string
    {
      match this
      case PretestType => "pretest"
      case LearningType => "learning"
      case PosttestType => "posttest"
      case PostposttestType => "postposttest"
    }
  }

  datatype Assignment = Assignment(questions: seq<Question>, atype: AssignmentType, day: string)

  /** Every question of `qs` carries a condition. */
  predicate AllConditioned(qs: seq<Question>)
  {
    forall q | q in qs :: q.condition.Some?
  }

  /** Every question of every assignment of a calendar carries a condition. */
  predicate Conditioned(plan: seq<Assignment>)
  {
    forall j | 0 <= j < |plan| :: AllConditioned(plan[j].questions)
  }

  datatype Outcome = Correct | Incorrect
  {
    function Label(): string { if Correct? then "CORRECT" else "INCORRECT" }
  }

  /** One synthetic log event. The fields follow `SimulatedEvent`; the field `class` is
      named `classId` here. The values are those `createSimulatedEvent` stores:
      `conditionType1`/`conditionType2` hold the fixed names "Standard Spacing" and
      "Question Variability", `conditionName1`/`conditionName2` the spacing and
      variability labels (the interface declares them the other way round). */
  datatype SimulatedEvent = SimulatedEvent(
    anonStudentId: nat,
    sessionId: nat,
    time: nat,
    problemStartTime: nat,
    problemName: string,
    level: string,
    input: string,
    conditionName1: string,
    conditionType1: string,
    conditionName2: string,
    conditionType2: string,
    action: string,
    selection: string,
    kcTopic: string,
    kcLearningObjective: string,
    school: nat,
    classId: nat,
    cfExemplarAnswer: string,
    cfQuestionType: string,
    cfOriginalDueDate: nat,
    cfResponseTime: nat,
    cfExperimentId: nat,
    cfStage: string,
    cfAnonTeacherId: nat,
    cfCourse: string,
    cfQuestionId: string,
    cfAssignmentDay: string,
    outcome: Outcome)

  /** Which reading the model follows at the two places where the code evidently does not
      do what its authors meant: the code `AsWritten`, or `Corrected` to the evident
      intent. Members that take one compute the source's behaviour under `AsWritten`. */
  datatype Revision = AsWritten | Corrected
}
