/** The tab-separated export of the event log (nsfStudy2/generateSimulatedEvents.ts,
    `convertToTSV`): a header line of the `keysDict` labels, then one line per event with
    the value of every `keysDict` key, fields joined by tabs and lines by newlines. */
module Tsv {
  import opened Text
  import T = StudyTypes

  const Tab: char := '\t'
  const Newline: char := '\n'

  /** `keyof SimulatedEvent`: the 28 keys of an event. */
  datatype EventKey =
      AnonStudentId | SessionId | Time | ProblemStartTime | ProblemName | Level | Input
    | ConditionName1 | ConditionType1 | ConditionName2 | ConditionType2 | Action | Selection
    | KcTopic | KcLearningObjective | School | Class | CfExemplarAnswer | CfQuestionType
    | CfOriginalDueDate | CfResponseTime | CfExperimentId | CfStage | CfAnonTeacherId
    | CfCourse | CfQuestionId | CfAssignmentDay | Outcome
  {
    /** The key as the event record spells it. */
    function Name(): string
    {
      match this
      case AnonStudentId => "anonStudentId"
      case SessionId => "sessionId"
      case Time => "time"
      case ProblemStartTime => "problemStartTime"
      case ProblemName => "problemName"
      case Level => "level"
      case Input => "input"
      case ConditionName1 => "conditionName1"
      case ConditionType1 => "conditionType1"
      case ConditionName2 => "conditionName2"
      case ConditionType2 => "conditionType2"
      case Action => "action"
      case Selection => "selection"
      case KcTopic => "kcTopic"
      case KcLearningObjective => "kcLearningObjective"
      case School => "school"
      case Class => "class"
      case CfExemplarAnswer => "cfExemplarAnswer"
      case CfQuestionType => "cfQuestionType"
      case CfOriginalDueDate => "cfOriginalDueDate"
      case CfResponseTime => "cfResponseTime"
      case CfExperimentId => "cfExperimentId"
      case CfStage => "cfStage"
      case CfAnonTeacherId => "cfAnonTeacherId"
      case CfCourse => "cfCourse"
      case CfQuestionId => "cfQuestionId"
      case CfAssignmentDay => "cfAssignmentDay"
      case Outcome => "outcome"
    }

    /** The column label `keysDict` gives the key. */
    function Label(): string
    {
      match this
      case AnonStudentId => "Anon Student Id"
      case SessionId => "Session Id"
      case Time => "Time"
      case ProblemStartTime => "Problem Start Time"
      case ProblemName => "Problem Name"
      case Level => "Level (Course)"
      case Input => "Input"
      case ConditionName1 => "Condition Name"
      case ConditionType1 => "Condition Type"
      case ConditionName2 => "Condition Name"
      case ConditionType2 => "Condition Type"
      case Action => "Action"
      case Selection => "Selection"
      case KcTopic => "KC (Topic)"
      case KcLearningObjective => "KC (LO)"
      case School => "School"
      case Class => "Class"
      case CfExemplarAnswer => Custom("Exemplar Answer")
      case CfQuestionType => Custom("Question Type")
      case CfOriginalDueDate => Custom("Original Due Date")
      case CfResponseTime => Custom("Response Time")
      case CfExperimentId => Custom("Experiment ID")
      case CfStage => Custom("Stage")
      case CfAnonTeacherId => Custom("Anon Teacher Id")
      case CfCourse => Custom("Course")
      case CfQuestionId => Custom("Question Id")
      case CfAssignmentDay => Custom("Assignment Day")
      case Outcome => "Outcome"
    }
  }

  /** The label of a custom field: its name in parentheses after "CF". */
  function Custom(name: string): string
  {
    "CF (" + name + ")"
  }

  /** The keys of `keysDict`, in declaration order. */
  const KeysDict: seq<EventKey> := [
    AnonStudentId, SessionId, Time, ProblemStartTime, ProblemName, Level, Input,
    ConditionName1, ConditionType1, ConditionName2, ConditionType2, Action, Selection, KcTopic,
    KcLearningObjective, School, Class, CfExemplarAnswer, CfQuestionType, CfOriginalDueDate,
    CfResponseTime, CfExperimentId, CfStage, CfAnonTeacherId, CfCourse, CfQuestionId,
    CfAssignmentDay, Outcome
  ]

  /** `String(event[key])`: numbers in decimal, strings as they are, the outcome as its
      enumeration value. */
  function FieldValue(e: T.SimulatedEvent, key: EventKey): string
  {
    match key
    case AnonStudentId => NatToString(e.anonStudentId)
    case SessionId => NatToString(e.sessionId)
    case Time => NatToString(e.time)
    case ProblemStartTime => NatToString(e.problemStartTime)
    case ProblemName => e.problemName
    case Level => e.level
    case Input => e.input
    case ConditionName1 => e.conditionName1
    case ConditionType1 => e.conditionType1
    case ConditionName2 => e.conditionName2
    case ConditionType2 => e.conditionType2
    case Action => e.action
    case Selection => e.selection
    case KcTopic => e.kcTopic
    case KcLearningObjective => e.kcLearningObjective
    case School => NatToString(e.school)
    case Class => NatToString(e.classId)
    case CfExemplarAnswer => e.cfExemplarAnswer
    case CfQuestionType => e.cfQuestionType
    case CfOriginalDueDate => NatToString(e.cfOriginalDueDate)
    case CfResponseTime => NatToString(e.cfResponseTime)
    case CfExperimentId => NatToString(e.cfExperimentId)
    case CfStage => e.cfStage
    case CfAnonTeacherId => NatToString(e.cfAnonTeacherId)
    case CfCourse => e.cfCourse
    case CfQuestionId => e.cfQuestionId
    case CfAssignmentDay => e.cfAssignmentDay
    case Outcome => e.outcome.Label()
  }

  /** `Object.values(keysDict)`: the column labels, in declaration order. */
  function Labels(): (r: seq<string>)
    ensures |r| == |KeysDict|
    ensures forall i | 0 <= i < |r| :: r[i] == KeysDict[i].Label()
  {
    seq(|KeysDict|, i requires 0 <= i < |KeysDict| => KeysDict[i].Label())
  }

  /** `Object.keys(keysDict).map((key) => String(event[key]))`: one field per key, in the
      order of the header. */
  function Row(e: T.SimulatedEvent): (r: seq<string>)
    ensures |r| == |KeysDict|
    ensures forall i | 0 <= i < |r| :: r[i] == FieldValue(e, KeysDict[i])
  {
    seq(|KeysDict|, i requires 0 <= i < |KeysDict| => FieldValue(e, KeysDict[i]))
  }

  function Header(): string
  {
    Join(Labels(), Tab)
  }

  function RowLine(e: T.SimulatedEvent): string
  {
    Join(Row(e), Tab)
  }

  /** The header line, then one line per event in input order. */
  function Lines(header: string, events: seq<T.SimulatedEvent>): (r: seq<string>)
    ensures |r| == |events| + 1 && r[0] == header
    ensures forall i | 0 <= i < |events| :: r[i + 1] == RowLine(events[i])
  {
    [header] + seq(|events|, i requires 0 <= i < |events| => RowLine(events[i]))
  }

  /** `convertToTSV`. */
  function ConvertToTSV(events: seq<T.SimulatedEvent>): (r: string)
    ensures Header() <= r
  {
    Join(Lines(Header(), events), Newline)
  }

  /** None of the event's fields contains a tab or a newline. */
  predicate Clean(e: T.SimulatedEvent)
  {
    forall i | 0 <= i < |KeysDict| :: Free(FieldValue(e, KeysDict[i]), Tab) && Free(FieldValue(e, KeysDict[i]), Newline)
  }

  // ---------------------------------------------------------------------------
  // Lemmas

  /** `keysDict` lists every key of an event, so each row has a field for every key. */
  lemma EveryKeyListed(k: EventKey)
    ensures k in KeysDict
  {
  }

  /** No character below the space: in particular no tab and no newline. */
  predicate Printable(s: string)
  {
    forall i | 0 <= i < |s| :: s[i] >= ' '
  }

  lemma PrintableFree(s: string)
    requires Printable(s)
    ensures Free(s, Tab) && Free(s, Newline)
  {
  }

  // Proof helpers for `LabelPrintable`: checking every literal label in one proof is
  // too costly for the verifier, so the labels are checked a few at a time.

  lemma SessionLabelsPrintable()
    ensures Printable(AnonStudentId.Label())
         && Printable(SessionId.Label())
         && Printable(Time.Label())
         && Printable(ProblemStartTime.Label())
  {
    var l0 := AnonStudentId.Label();
    var l1 := SessionId.Label();
    var l2 := Time.Label();
    var l3 := ProblemStartTime.Label();
    assert Printable(l0); assert Printable(l1); assert Printable(l2); assert Printable(l3);
  }

  lemma ProblemLabelsPrintable()
    ensures Printable(ProblemName.Label())
         && Printable(Level.Label())
         && Printable(Input.Label())
  {
    var l0 := ProblemName.Label();
    var l1 := Level.Label();
    var l2 := Input.Label();
    assert Printable(l0); assert Printable(l1); assert Printable(l2);
  }

  lemma ConditionLabelsPrintable()
    ensures Printable(ConditionName1.Label())
         && Printable(ConditionType1.Label())
         && Printable(ConditionName2.Label())
         && Printable(ConditionType2.Label())
  {
    var l0 := ConditionName1.Label();
    var l1 := ConditionType1.Label();
    var l2 := ConditionName2.Label();
    var l3 := ConditionType2.Label();
    assert Printable(l0); assert Printable(l1); assert Printable(l2); assert Printable(l3);
  }

  lemma ResponseLabelsPrintable()
    ensures Printable(Action.Label())
         && Printable(Selection.Label())
         && Printable(KcTopic.Label())
         && Printable(KcLearningObjective.Label())
  {
    var l0 := Action.Label();
    var l1 := Selection.Label();
    var l2 := KcTopic.Label();
    var l3 := KcLearningObjective.Label();
    assert Printable(l0); assert Printable(l1); assert Printable(l2); assert Printable(l3);
  }

  lemma SchoolLabelsPrintable()
    ensures Printable(School.Label())
         && Printable(Class.Label())
         && Printable(Outcome.Label())
  {
    var l0 := School.Label();
    var l1 := Class.Label();
    var l2 := Outcome.Label();
    assert Printable(l0); assert Printable(l1); assert Printable(l2);
  }

  lemma TaskNamesPrintable()
    ensures Printable("Exemplar Answer") && Printable("Question Type") && Printable("Original Due Date")
         && Printable("Response Time") && Printable("Experiment ID")
  {
    var n0, n1, n2, n3, n4 := "Exemplar Answer", "Question Type", "Original Due Date", "Response Time", "Experiment ID";
    assert Printable(n0); assert Printable(n1); assert Printable(n2); assert Printable(n3); assert Printable(n4);
  }

  lemma ContextNamesPrintable()
    ensures Printable("Stage") && Printable("Anon Teacher Id") && Printable("Course")
         && Printable("Question Id") && Printable("Assignment Day")
  {
    var n0, n1, n2, n3, n4 := "Stage", "Anon Teacher Id", "Course", "Question Id", "Assignment Day";
    assert Printable(n0); assert Printable(n1); assert Printable(n2); assert Printable(n3); assert Printable(n4);
  }

  lemma CustomPrintable(name: string)
    requires Printable(name)
    ensures Printable(Custom(name))
  {
    var p := "CF (";
    assert Printable(p) && Printable(")");
  }

  /** Every column label is printable. */
  lemma LabelPrintable(k: EventKey)
    ensures Printable(k.Label())
  {
    SessionLabelsPrintable();
    ProblemLabelsPrintable();
    ConditionLabelsPrintable();
    ResponseLabelsPrintable();
    SchoolLabelsPrintable();
    TaskNamesPrintable();
    ContextNamesPrintable();
    match k
    case CfExemplarAnswer => CustomPrintable("Exemplar Answer");
    case CfQuestionType => CustomPrintable("Question Type");
    case CfOriginalDueDate => CustomPrintable("Original Due Date");
    case CfResponseTime => CustomPrintable("Response Time");
    case CfExperimentId => CustomPrintable("Experiment ID");
    case CfStage => CustomPrintable("Stage");
    case CfAnonTeacherId => CustomPrintable("Anon Teacher Id");
    case CfCourse => CustomPrintable("Course");
    case CfQuestionId => CustomPrintable("Question Id");
    case CfAssignmentDay => CustomPrintable("Assignment Day");
    case _ =>
  }

  /** There are 28 columns and no label contains a tab or a newline. */
  lemma LabelsFree()
    ensures |Labels()| == 28
    ensures forall i | 0 <= i < |Labels()| :: Free(Labels()[i], Tab) && Free(Labels()[i], Newline)
  {
    var ls := Labels();
    forall i | 0 <= i < |ls| ensures Free(ls[i], Tab) && Free(ls[i], Newline) {
      LabelPrintable(KeysDict[i]);
      PrintableFree(ls[i]);
    }
  }

  /** The header splits on tabs into the labels. */
  lemma HeaderFields()
    ensures Split(Header(), Tab) == Labels()
  {
    LabelsFree();
    SplitJoin(Labels(), Tab);
  }

  /** Without events, the export is the header line alone. */
  lemma NoEventsHeaderOnly()
    ensures ConvertToTSV([]) == Header()
  {
    assert Lines(Header(), []) == [Header()];
  }

  /** The lines of the export, when no event field contains a newline: the header first,
      then each event's line in input order, with no trailing empty line. */
  lemma ExportLines(events: seq<T.SimulatedEvent>)
    requires forall k | 0 <= k < |events| :: Clean(events[k])
    ensures Split(ConvertToTSV(events), Newline) == Lines(Header(), events)
    ensures |Split(ConvertToTSV(events), Newline)| == |events| + 1
  {
    var lines := Lines(Header(), events);
    LabelsFree();
    JoinFree(Labels(), Tab, Newline);
    forall k | 0 <= k < |events| ensures Free(RowLine(events[k]), Newline) {
      JoinFree(Row(events[k]), Tab, Newline);
    }
    assert forall j | 0 <= j < |lines| :: Free(lines[j], Newline) by {
      forall j | 0 <= j < |lines| ensures Free(lines[j], Newline) {
        if j > 0 {
          assert lines[j] == RowLine(events[j - 1]);
        }
      }
    }
    SplitJoin(lines, Newline);
  }

  /** An event's line splits on tabs into its 28 field values, when none of them
      contains a tab. */
  lemma RowFields(e: T.SimulatedEvent)
    requires Clean(e)
    ensures Split(RowLine(e), Tab) == Row(e) && |Row(e)| == 28
  {
    SplitJoin(Row(e), Tab);
  }

  /** The round trip of the export: when no event field contains a tab or a newline,
      splitting the text on newlines and then line `k + 1` on tabs gives back the 28 field
      values of event `k`, each under the label of its key. */
  lemma ExportRoundTrip(events: seq<T.SimulatedEvent>, k: nat)
    requires forall j | 0 <= j < |events| :: Clean(events[j])
    requires k < |events|
    ensures var lines := Split(ConvertToTSV(events), Newline);
      && |lines| == |events| + 1
      && Split(lines[0], Tab) == Labels()
      && Split(lines[k + 1], Tab) == Row(events[k])
      && |Row(events[k])| == 28
  {
    ExportLines(events);
    var lines := Lines(Header(), events);
    assert lines[0] == Header() && lines[k + 1] == RowLine(events[k]);
    HeaderFields();
    RowFields(events[k]);
  }
}
