/** The event simulator (nsfStudy2/simulateStudy.ts): every student of every class works
    through the assignments of their calendar, and each question answered becomes one
    synthetic log event. The random draws (the student's calendar, the response times,
    the gaps between assignments and questions, whether an answer is correct) are
    parameters; the clock reading `Date.now()` is the parameter `baseStartTime`. */
module Simulation {
  import opened Wrappers
  import opened Text
  import opened Seqs
  import opened StudyTypes

  // ---------------------------------------------------------------------------
  // `config`

  const SchoolId: nat := 1
  const NumClasses: nat := 6
  const StudentsPerClass: nat := 20
  const CourseName: string := "AP Biology"
  const ExperimentId: nat := 1

  /** `teacherAssignments`, in the order `Object.entries` lists its integer-like keys. */
  const TeacherAssignments: seq<(nat, seq<nat>)> := [(101, [1, 2, 3]), (102, [4, 5, 6])]

  /** `7 * 24 * 60 * 60 * 1000`: an assignment is due a week after it starts. */
  const WeekMs: nat := 604800000

  // ---------------------------------------------------------------------------
  // Stages and responses

  /** The `switch` of `mapAssignmentType`, on the type's string. */
  function StageOfLabel(t: string): (r: string)
    ensures r in ["pre-test", "post-test", "post-post-test", "learning"]
    ensures r == "learning" <==> t !in ["pretest", "posttest", "postposttest"]
  {
    if t == "pretest" then "pre-test"
    else if t == "posttest" then "post-test"
    else if t == "postposttest" then "post-post-test"
    else "learning"
  }

  /** `mapAssignmentType`. */
  function MapAssignmentType(t: AssignmentType): string
  {
    StageOfLabel(t.Label())
  }

  /** The answer the simulated student submits and how it is graded. */
  datatype Response = Response(selection: string, outcome: Outcome)

  const Letters: seq<string> := ["A", "B", "C", "D"]

  /** `options.filter((opt) => opt !== key)[0]`: the first option that differs from the
      key; a boolean key differs from every string. */
  function FirstOther(options: seq<string>, key: AnswerKey): (r: Option<string>)
    ensures r.Some? ==> r.value in options && key != TextKey(r.value)
    ensures r.None? <==> forall i | 0 <= i < |options| :: key == TextKey(options[i])
  {
    if options == [] then None
    else if key == TextKey(options[0]) then FirstOther(options[1..], key)
    else Some(options[0])
  }

  /** The wrong letter an incorrect multiple-choice answer picks: "B" for the key "A",
      "A" for any other key (the lower-case keys of the placeholder bank included). */
  function WrongLetter(key: AnswerKey): (r: string)
    ensures r in Letters && key != TextKey(r)
    ensures r == if key == TextKey("A") then "B" else "A"
  {
    assert Letters[0] != Letters[1];
    FirstOther(Letters, key).value
  }

  function Grade(isCorrect: bool): Outcome
  {
    if isCorrect then Correct else Incorrect
  }

  /** `generateSimulatedResponse` as written: an incorrect true/false answer is "false" only
      when the key is the string "true", so for the boolean key `true` it is "true" — the
      correct answer, graded INCORRECT. Otherwise an incorrect response submits something
      other than the key (for free-text questions, unless the key itself is "incorrect
      answer"). */
  function GenerateSimulatedResponseAsWritten(q: Question, isCorrect: bool): (r: Response)
    ensures r.outcome == Correct <==> isCorrect
    ensures isCorrect ==> r.selection == q.answerKey.ToString()
    ensures !isCorrect && q.answerKey.ToString() != "incorrect answer" && q.answerKey != FlagKey(true) ==>
              r.selection != q.answerKey.ToString()
    ensures !isCorrect && q.qtype == "mcq" ==> r.selection in Letters
    ensures !isCorrect && q.qtype == "tof" ==> r.selection in ["true", "false"]
  {
    var key := q.answerKey;
    if q.qtype == "mcq" then
      Response(if isCorrect then key.ToString() else WrongLetter(key), Grade(isCorrect))
    else if q.qtype == "tof" then
      Response(if isCorrect then key.ToString()
               else if key == TextKey("true") then "false" else "true", Grade(isCorrect))
    else
      Response(if isCorrect then key.ToString() else "incorrect answer", Grade(isCorrect))
  }

  /** `generateSimulatedResponse` with the true/false case comparing the key's string form:
      an incorrect answer is the opposite truth value of whatever the key says. A correct
      response submits the key, an incorrect one something else (for free-text questions,
      unless the key itself is "incorrect answer"). */
  function GenerateSimulatedResponse(q: Question, isCorrect: bool): (r: Response)
    ensures r.outcome == Correct <==> isCorrect
    ensures isCorrect ==> r.selection == q.answerKey.ToString()
    ensures !isCorrect && q.answerKey.ToString() != "incorrect answer" ==>
              r.selection != q.answerKey.ToString()
    ensures !isCorrect && q.qtype == "mcq" ==> r.selection in Letters
    ensures !isCorrect && q.qtype == "tof" ==> r.selection in ["true", "false"]
  {
    var key := q.answerKey;
    if q.qtype == "mcq" then
      Response(if isCorrect then key.ToString() else WrongLetter(key), Grade(isCorrect))
    else if q.qtype == "tof" then
      Response(if isCorrect then key.ToString()
               else if key.ToString() == "true" then "false" else "true", Grade(isCorrect))
    else
      Response(if isCorrect then key.ToString() else "incorrect answer", Grade(isCorrect))
  }

  /** The response rule of the chosen reading: `generateSimulatedResponse` as written, or
      with the true/false case corrected. */
  function Respond(rev: Revision, q: Question, isCorrect: bool): Response
  {
    if rev.AsWritten? then GenerateSimulatedResponseAsWritten(q, isCorrect) else GenerateSimulatedResponse(q, isCorrect)
  }

  // ---------------------------------------------------------------------------
  // Events

  /** The two errors the simulation throws. */
  datatype SimError =
    | MissingCondition(questionId: string, atype: AssignmentType, day: string)
    | NoTeacher(classId: nat)
  {
    /** The message of the thrown `Error`. */
    function Message(): string
    {
      match this
      case MissingCondition(id, t, day) => "Question " + id + " in " + t.Label() + " (" + day + ") is missing condition"
      case NoTeacher(c) => "No teacher assigned to class " + NatToString(c)
    }
  }

  /** The last element of a non-empty sequence (`.at(-1)`). */
  function Last<T>(s: seq<T>): T
    requires |s| >= 1
  {
    s[|s| - 1]
  }

  /** `createSimulatedEvent`, with the drawn response time and correctness as parameters.
      A question without a condition is an error. Otherwise the event records the student,
      session, class and teacher it was given; the question's stem, identifier, topic (its
      objective label), type, key and condition; the stage of the assignment and its day;
      the response (submitted both as `input` and as `selection`) and its outcome; it starts
      at `currentTime`, ends `responseTime` later and is due a week after it starts. */
  function CreateSimulatedEvent(
    rev: Revision, studentId: nat, sessionId: nat, q: Question, a: Assignment, classId: nat, teacherId: nat,
    currentTime: nat, responseTime: nat, isCorrect: bool): (r: Result<SimulatedEvent, SimError>)
    ensures r.Ok? <==> q.condition.Some?
  {
    var response := Respond(rev, q, isCorrect);
    if q.condition.None? then
      Err(MissingCondition(q.id, a.atype, a.day))
    else
      var c := q.condition.value;
      Ok(SimulatedEvent(
        studentId, sessionId, currentTime + responseTime, currentTime,
        q.stem, CourseName, response.selection,
        c.spacing.Label(), "Standard Spacing", c.variability.Label(), "Question Variability",
        "Select", response.selection, q.lo, Last(Split(q.id, '-')),
        SchoolId, classId, q.answerKey.ToString(), q.qtype,
        currentTime + WeekMs, responseTime, ExperimentId,
        MapAssignmentType(a.atype), teacherId, CourseName, q.id, a.day, response.outcome))
  }

  /** What `createSimulatedEvent` records. A question without a condition is an error.
      Otherwise the event records the fixed course, school, experiment, action and
      condition-type names; the student, session, class and teacher it was given;
      the question's stem, identifier, topic (its objective label), type, key and
      condition; the stage of the assignment and its day; the response (submitted both as
      `input` and as `selection`) and its outcome; it starts at `currentTime`, ends
      `responseTime` later and is due a week after it starts. */
  lemma CreatedEventFields(
    rev: Revision, studentId: nat, sessionId: nat, q: Question, a: Assignment, classId: nat, teacherId: nat,
    currentTime: nat, responseTime: nat, isCorrect: bool)
    ensures var r := CreateSimulatedEvent(rev, studentId, sessionId, q, a, classId, teacherId,
                                          currentTime, responseTime, isCorrect);
      && (r.Err? ==> r.error == MissingCondition(q.id, a.atype, a.day))
      && (r.Ok? ==>
        var e := r.value;
      && e.anonStudentId == studentId && e.sessionId == sessionId
      && e.classId == classId && e.cfAnonTeacherId == teacherId
      && e.problemStartTime == currentTime && e.time == currentTime + e.cfResponseTime
      && e.cfResponseTime == responseTime && e.cfOriginalDueDate == currentTime + WeekMs
      && e.problemName == q.stem && e.cfQuestionId == q.id && e.kcTopic == q.lo
      && e.kcLearningObjective == Last(Split(q.id, '-'))
      && e.conditionName1 == q.condition.value.spacing.Label()
      && e.conditionName2 == q.condition.value.variability.Label()
      && e.cfStage == MapAssignmentType(a.atype) && e.cfAssignmentDay == a.day
      && e.cfExemplarAnswer == q.answerKey.ToString() && e.cfQuestionType == q.qtype
      && e.level == CourseName && e.cfCourse == CourseName
      && e.conditionType1 == "Standard Spacing" && e.conditionType2 == "Question Variability"
      && e.action == "Select" && e.school == SchoolId && e.cfExperimentId == ExperimentId
      && e.input == e.selection && e.selection == Respond(rev, q, isCorrect).selection
      && (e.outcome == Correct <==> isCorrect)
      && (isCorrect ==> e.selection == q.answerKey.ToString())
      && (!isCorrect && q.qtype == "mcq" ==> e.selection in Letters)
      && (!isCorrect && q.qtype == "tof" ==> e.selection in ["true", "false"]))
  {
  }

  // ---------------------------------------------------------------------------
  // Teachers

  /** `Object.entries(table).find(([_, classes]) => classes.includes(classId))?.[0]`: the
      teacher of the first entry that lists the class, if any. */
  function FindTeacher(table: seq<(nat, seq<nat>)>, classId: nat): Option<nat>
  {
    if table == [] then None
    else if classId in table[0].1 then Some(table[0].0)
    else FindTeacher(table[1..], classId)
  }

  /** The lookup finds nothing exactly when no entry lists the class, and otherwise
      returns the teacher of the first entry that lists it. */
  lemma {:induction false} FindTeacherSpec(table: seq<(nat, seq<nat>)>, classId: nat)
    ensures var r := FindTeacher(table, classId);
      && (r.None? <==> forall i | 0 <= i < |table| :: classId !in table[i].1)
      && (r.Some? ==> exists i | 0 <= i < |table| ::
            && table[i].0 == r.value && classId in table[i].1
            && forall j | 0 <= j < i :: classId !in table[j].1)
  {
    if table != [] && classId !in table[0].1 {
      var tail := table[1..];
      FindTeacherSpec(tail, classId);
      assert forall i | 1 <= i < |table| :: table[i] == tail[i - 1];
      var r := FindTeacher(tail, classId);
      if r.Some? {
        var i :| 0 <= i < |tail| && tail[i].0 == r.value && classId in tail[i].1
                 && forall j | 0 <= j < i :: classId !in tail[j].1;
        assert table[i + 1] == tail[i];
      }
    }
  }

  /** Classes 1 to `n` all have a teacher. */
  predicate ClassesTaught(n: nat)
  {
    forall c | 1 <= c <= n :: FindTeacher(TeacherAssignments, c).Some?
  }

  /** Every class of the study has a teacher. */
  predicate TeachersFound()
  {
    ClassesTaught(NumClasses)
  }

  /** The class a student (numbered from 1 across the whole study) sits in. */
  function ClassOf(studentId: nat): (c: nat)
    requires studentId >= 1
    ensures 1 <= c
    ensures studentId <= NumClasses * StudentsPerClass ==> c <= NumClasses
  {
    (studentId - 1) / StudentsPerClass + 1
  }

  // ---------------------------------------------------------------------------
  // The study run

  /** The draws of one run, indexed by student, assignment position and question
      position: the gap before each assignment, the pause after each question, each
      response time and whether each answer is correct. */
  datatype Draws = Draws(
    dayGap: (nat, nat) -> nat,
    pause: (nat, nat, nat) -> nat,
    responseTime: (nat, nat, nat) -> nat,
    correct: (nat, nat, nat) -> bool)

  /** The student, class and teacher that events are recorded for. */
  datatype Seat = Seat(studentId: nat, classId: nat, teacherId: nat)

  /** The arguments of one `createSimulatedEvent` call. */
  datatype Call = Call(
    seat: Seat, sessionId: nat, assignment: Assignment, question: Question,
    start: nat, responseTime: nat, isCorrect: bool)

  /** `createSimulatedEvent` on the arguments of one call, under the chosen reading. */
  function EventOf(rev: Revision): Call -> Result<SimulatedEvent, SimError>
  {
    (c: Call) => CreateSimulatedEvent(rev, c.seat.studentId, c.sessionId, c.question, c.assignment,
                                      c.seat.classId, c.seat.teacherId, c.start, c.responseTime, c.isCorrect)
  }

  /** The calls made so far and the clock after them. */
  datatype Run = Run(calls: seq<Call>, time: nat)

  /** The calls for the first `n` questions of assignment `a` (position `ai` in the
      student's calendar), the first one starting at `start`. */
  function QuestionRun(seat: Seat, sessionId: nat, a: Assignment, ai: nat, n: nat, start: nat, d: Draws)
    : (r: Run)
    requires n <= |a.questions|
  {
    if n == 0 then Run([], start)
    else
      var prev := QuestionRun(seat, sessionId, a, ai, n - 1, start, d);
      var s, q := seat.studentId, n - 1;
      var c := Call(seat, sessionId, a, a.questions[q], prev.time, d.responseTime(s, ai, q), d.correct(s, ai, q));
      Run(prev.calls + [c], prev.time + d.pause(s, ai, q))
  }

  /** The number of questions in the first `n` assignments of a calendar. */
  function QuestionsBefore(plan: seq<Assignment>, n: nat): nat
    requires n <= |plan|
  {
    if n == 0 then 0 else QuestionsBefore(plan, n - 1) + |plan[n - 1].questions|
  }

  /** The calls for the first `n` assignments of one student's calendar, the first
      assignment in session `firstSession`; the clock starts at `base`. */
  function PlanRun(seat: Seat, firstSession: nat, plan: seq<Assignment>, n: nat, base: nat, d: Draws)
    : (r: Run)
    requires n <= |plan|
  {
    if n == 0 then Run([], base)
    else
      var prev := PlanRun(seat, firstSession, plan, n - 1, base, d);
      var a := plan[n - 1];
      var qs := QuestionRun(seat, firstSession + n - 1, a, n - 1, |a.questions|,
                            prev.time + d.dayGap(seat.studentId, n - 1), d);
      Run(prev.calls + qs.calls, qs.time)
  }

  /** The number of assignments, and so of sessions, of the first `n` students. */
  function SessionsBefore(plans: seq<seq<Assignment>>, n: nat): nat
    requires n <= |plans|
  {
    if n == 0 then 0 else SessionsBefore(plans, n - 1) + |plans[n - 1]|
  }

  /** The number of questions of the first `n` students. */
  function TotalQuestions(plans: seq<seq<Assignment>>, n: nat): nat
    requires n <= |plans|
  {
    if n == 0 then 0 else TotalQuestions(plans, n - 1) + QuestionsBefore(plans[n - 1], |plans[n - 1]|)
  }

  /** The number of the `k`-th student (from 1) of class `classId`. */
  function StudentNumber(classId: nat, k: nat): nat
    requires 1 <= classId
  {
    StudentsPerClass * (classId - 1) + k
  }

  /** The calls of the student at position `j` (from 0) of class `classId`, taught by
      `teacherId`: student number `StudentNumber(classId, j) + 1`, whose calendar starts in
      the session after those of all students before them, with the clock at `base`. */
  function StudentCalls(plans: seq<seq<Assignment>>, classId: nat, teacherId: nat, j: nat, base: nat, d: Draws)
    : seq<Call>
    requires 1 <= classId && StudentNumber(classId, j) < |plans|
  {
    var s0 := StudentNumber(classId, j);
    PlanRun(Seat(s0 + 1, classId, teacherId), SessionsBefore(plans, s0) + 1, plans[s0], |plans[s0]|, base, d).calls
  }

  /** The calls for the first `k` students of class `classId`. */
  function ClassCalls(plans: seq<seq<Assignment>>, classId: nat, teacherId: nat, k: nat, base: nat, d: Draws)
    : seq<Call>
    requires 1 <= classId && StudentNumber(classId, k) <= |plans|
  {
    if k == 0 then []
    else ClassCalls(plans, classId, teacherId, k - 1, base, d) + StudentCalls(plans, classId, teacherId, k - 1, base, d)
  }

  /** The calls for the students of the first `n` classes, each class with the teacher the
      table gives it. */
  function StudyCalls(plans: seq<seq<Assignment>>, n: nat, base: nat, d: Draws): seq<Call>
    requires StudentsPerClass * n <= |plans| && ClassesTaught(n)
  {
    if n == 0 then []
    else
      StudyCalls(plans, n - 1, base, d)
      + ClassCalls(plans, n, FindTeacher(TeacherAssignments, n).value, StudentsPerClass, base, d)
  }

  /** Every call's question carries a condition. */
  predicate Answerable(calls: seq<Call>)
  {
    forall i | 0 <= i < |calls| :: calls[i].question.condition.Some?
  }

  /** Applying `f` to each element in order, as a loop that pushes each result and stops
      at the first error: the results, or the first error. */
  function Collect<T, U>(xs: seq<T>, f: T -> Result<U, SimError>): (r: Result<seq<U>, SimError>)
  {
    if xs == [] then Ok([])
    else
      var prev := Collect(xs[..|xs| - 1], f);
      if prev.Err? then prev
      else
        var last := f(xs[|xs| - 1]);
        if last.Err? then Err(last.error) else Ok(prev.value + [last.value])
  }

  /** A successful `Collect` has one result per element. */
  lemma {:induction false} CollectLength<T, U>(xs: seq<T>, f: T -> Result<U, SimError>)
    ensures Collect(xs, f).Ok? ==> |Collect(xs, f).value| == |xs|
  {
    if xs != [] {
      CollectLength(xs[..|xs| - 1], f);
    }
  }

  /** `Collect` succeeds exactly when `f` succeeds on every element, and then holds each
      element's result at its position. */
  lemma {:induction false} CollectAt<T, U>(xs: seq<T>, f: T -> Result<U, SimError>)
    ensures Collect(xs, f).Ok? <==> forall i | 0 <= i < |xs| :: f(xs[i]).Ok?
    ensures Collect(xs, f).Ok? ==> |Collect(xs, f).value| == |xs|
                                   && forall i | 0 <= i < |xs| :: f(xs[i]) == Ok(Collect(xs, f).value[i])
  {
    if xs != [] {
      var init := xs[..|xs| - 1];
      CollectAt(init, f);
      CollectLength(init, f);
      assert forall i | 0 <= i < |init| :: init[i] == xs[i];
    }
  }

  /** Collecting over two lists in a row: the results of the first, then those of the
      second, unless one of them fails. */
  lemma {:induction false} CollectConcat<T, U>(a: seq<T>, b: seq<T>, f: T -> Result<U, SimError>)
    ensures Collect(a + b, f) == if Collect(a, f).Err? then Collect(a, f)
                                 else if Collect(b, f).Err? then Collect(b, f)
                                 else Ok(Collect(a, f).value + Collect(b, f).value)
  {
    if b == [] {
      assert a + b == a;
      if Collect(a, f).Ok? {
        assert Collect(a, f).value + [] == Collect(a, f).value;
      }
    } else {
      var b0, x := b[..|b| - 1], b[|b| - 1];
      assert a + b == (a + b0) + [x];
      assert b == b0 + [x];
      CollectConcat(a, b0, f);
      CollectSnoc(a + b0, x, f);
      CollectSnoc(b0, x, f);
      if Collect(a, f).Ok? && Collect(b0, f).Ok? && f(x).Ok? {
        var va, vb := Collect(a, f).value, Collect(b0, f).value;
        assert (va + vb) + [f(x).value] == va + (vb + [f(x).value]);
      }
    }
  }

  /** Collecting over one more element. */
  lemma CollectSnoc<T, U>(xs: seq<T>, x: T, f: T -> Result<U, SimError>)
    ensures Collect(xs + [x], f) == if Collect(xs, f).Err? then Collect(xs, f)
                                    else if f(x).Err? then Err(f(x).error)
                                    else Ok(Collect(xs, f).value + [f(x).value])
  {
    assert (xs + [x])[..|xs|] == xs;
  }

  /** Once the first `m` questions of an assignment fail, the whole assignment fails
      with the same error. */
  lemma {:induction false} QuestionRunErr<U>(seat: Seat, sessionId: nat, a: Assignment, ai: nat,
                                             m: nat, n: nat, start: nat, d: Draws, f: Call -> Result<U, SimError>)
    requires m <= n <= |a.questions|
    requires Collect(QuestionRun(seat, sessionId, a, ai, m, start, d).calls, f).Err?
    ensures Collect(QuestionRun(seat, sessionId, a, ai, n, start, d).calls, f)
         == Collect(QuestionRun(seat, sessionId, a, ai, m, start, d).calls, f)
    decreases n
  {
    if m < n {
      QuestionRunErr(seat, sessionId, a, ai, m, n - 1, start, d, f);
      var prev := QuestionRun(seat, sessionId, a, ai, n - 1, start, d);
      var r := QuestionRun(seat, sessionId, a, ai, n, start, d);
      assert r.calls == prev.calls + [r.calls[|r.calls| - 1]];
      CollectSnoc(prev.calls, r.calls[|r.calls| - 1], f);
    }
  }

  /** Once the first `m` assignments of a calendar fail, the whole calendar fails with the
      same error. */
  lemma {:induction false} PlanRunErr<U>(seat: Seat, firstSession: nat, plan: seq<Assignment>,
                                         m: nat, n: nat, base: nat, d: Draws, f: Call -> Result<U, SimError>)
    requires m <= n <= |plan|
    requires Collect(PlanRun(seat, firstSession, plan, m, base, d).calls, f).Err?
    ensures Collect(PlanRun(seat, firstSession, plan, n, base, d).calls, f)
         == Collect(PlanRun(seat, firstSession, plan, m, base, d).calls, f)
    decreases n
  {
    if m < n {
      PlanRunErr(seat, firstSession, plan, m, n - 1, base, d, f);
      var prev := PlanRun(seat, firstSession, plan, n - 1, base, d);
      var a := plan[n - 1];
      var qs := QuestionRun(seat, firstSession + n - 1, a, n - 1, |a.questions|,
                            prev.time + d.dayGap(seat.studentId, n - 1), d);
      assert PlanRun(seat, firstSession, plan, n, base, d).calls == prev.calls + qs.calls;
      CollectConcat(prev.calls, qs.calls, f);
    }
  }

  /** The state of the question loop after `qi` questions: the events and the clock are
      those of the first `qi` calls. */
  ghost predicate QuestionsSoFar(f: Call -> Result<SimulatedEvent, SimError>, seat: Seat, sessionId: nat, a: Assignment,
                                 ai: nat, start: nat, d: Draws, qi: nat, events: seq<SimulatedEvent>, currentTime: nat)
  {
    && qi <= |a.questions|
    && Ok(events) == Collect(QuestionRun(seat, sessionId, a, ai, qi, start, d).calls, f)
    && currentTime == QuestionRun(seat, sessionId, a, ai, qi, start, d).time
  }

  /** One question of the assignment loop, for any event maker `f`: the event made for
      the next call extends the events so far, or its error is that of the whole
      assignment. */
  lemma QuestionStep(seat: Seat, sessionId: nat, a: Assignment, ai: nat, start: nat, d: Draws,
                     f: Call -> Result<SimulatedEvent, SimError>,
                     qi: nat, events: seq<SimulatedEvent>, currentTime: nat, e: Result<SimulatedEvent, SimError>)
    requires qi < |a.questions|
    requires QuestionsSoFar(f, seat, sessionId, a, ai, start, d, qi, events, currentTime)
    requires e == f(Call(seat, sessionId, a, a.questions[qi], currentTime,
                         d.responseTime(seat.studentId, ai, qi), d.correct(seat.studentId, ai, qi)))
    ensures e.Err? ==> Err(e.error) == Collect(QuestionRun(seat, sessionId, a, ai, |a.questions|, start, d).calls, f)
    ensures e.Ok? ==> QuestionsSoFar(f, seat, sessionId, a, ai, start, d, qi + 1, events + [e.value],
                                     currentTime + d.pause(seat.studentId, ai, qi))
  {
    var s := seat.studentId;
    var c := Call(seat, sessionId, a, a.questions[qi], currentTime, d.responseTime(s, ai, qi), d.correct(s, ai, qi));
    var done := QuestionRun(seat, sessionId, a, ai, qi, start, d).calls;
    assert QuestionRun(seat, sessionId, a, ai, qi + 1, start, d).calls == done + [c];
    CollectSnoc(done, c, f);
    if e.Err? {
      QuestionRunErr(seat, sessionId, a, ai, qi + 1, |a.questions|, start, d, f);
    }
  }

  /** The callback `assignments.forEach` runs for the question list of one assignment:
      one event per question, the clock advancing by the drawn pause after each. Stops at
      the first question without a condition. */
  method RecordAssignment(makeEvent: Call -> Result<SimulatedEvent, SimError>,
                          seat: Seat, sessionId: nat, a: Assignment, ai: nat, start: nat, d: Draws)
    returns (r: Result<seq<SimulatedEvent>, SimError>, time: nat)
    ensures r == Collect(QuestionRun(seat, sessionId, a, ai, |a.questions|, start, d).calls, makeEvent)
    ensures r.Ok? ==> time == QuestionRun(seat, sessionId, a, ai, |a.questions|, start, d).time
  {
    var events: seq<SimulatedEvent> := [];
    var currentTime: nat := start;
    var s := seat.studentId;
    for qi := 0 to |a.questions|
      invariant QuestionsSoFar(makeEvent, seat, sessionId, a, ai, start, d, qi, events, currentTime)
    {
      var e := RecordNextQuestion(makeEvent, seat, sessionId, a, ai, start, d, qi, events, currentTime);
      if e.Err? {
        return Err(e.error), currentTime;
      }
      events := events + [e.value];
      currentTime := currentTime + d.pause(s, ai, qi);
    }
    r, time := Ok(events), currentTime;
  }

  /** One question of the assignment loop: the event made for it, and the state of the
      loop after it. */
  method RecordNextQuestion(makeEvent: Call -> Result<SimulatedEvent, SimError>,
                            seat: Seat, sessionId: nat, a: Assignment, ai: nat, start: nat, d: Draws,
                            qi: nat, events: seq<SimulatedEvent>, currentTime: nat)
    returns (e: Result<SimulatedEvent, SimError>)
    requires qi < |a.questions|
    requires QuestionsSoFar(makeEvent, seat, sessionId, a, ai, start, d, qi, events, currentTime)
    ensures e.Err? ==> Err(e.error) == Collect(QuestionRun(seat, sessionId, a, ai, |a.questions|, start, d).calls, makeEvent)
    ensures e.Ok? ==> QuestionsSoFar(makeEvent, seat, sessionId, a, ai, start, d, qi + 1, events + [e.value],
                                     currentTime + d.pause(seat.studentId, ai, qi))
  {
    var s := seat.studentId;
    e := makeEvent(Call(seat, sessionId, a, a.questions[qi], currentTime, d.responseTime(s, ai, qi), d.correct(s, ai, qi)));
    QuestionStep(seat, sessionId, a, ai, start, d, makeEvent, qi, events, currentTime, e);
  }

  /** One more assignment of `plan`: its calls follow those of the earlier ones, starting
      after the drawn gap, in the next session. Stated over the terms the callers hold. */
  lemma PlanRunStep(seat: Seat, firstSession: nat, plan: seq<Assignment>, n: nat, base: nat, d: Draws,
                    sessionId: nat, start: nat)
    requires n < |plan|
    requires sessionId == firstSession + n
    requires start == PlanRun(seat, firstSession, plan, n, base, d).time + d.dayGap(seat.studentId, n)
    ensures var qs := QuestionRun(seat, sessionId, plan[n], n, |plan[n].questions|, start, d);
      && PlanRun(seat, firstSession, plan, n + 1, base, d).calls
         == PlanRun(seat, firstSession, plan, n, base, d).calls + qs.calls
      && PlanRun(seat, firstSession, plan, n + 1, base, d).time == qs.time
  {
  }

  /** The state of the student loop after `ai` assignments: the session counter has moved
      on by `ai`, and the events and the clock are those of the first `ai` assignments. */
  ghost predicate StudentSoFar<U>(f: Call -> Result<U, SimError>, seat: Seat, firstSession: nat, plan: seq<Assignment>, base: nat, d: Draws,
                               ai: nat, events: seq<U>, currentTime: nat, sessionId: nat)
  {
    && ai <= |plan| && sessionId == firstSession + ai
    && Ok(events) == Collect(PlanRun(seat, firstSession, plan, ai, base, d).calls, f)
    && currentTime == PlanRun(seat, firstSession, plan, ai, base, d).time
  }

  /** One assignment of the student loop: its events extend those of the earlier
      assignments, or its error is that of the whole calendar. */
  lemma AssignmentStep<U>(f: Call -> Result<U, SimError>, seat: Seat, firstSession: nat, plan: seq<Assignment>, base: nat, d: Draws,
                       ai: nat, a: Assignment, start: nat, events: seq<U>,
                       currentTime: nat, sessionId: nat, run: Result<seq<U>, SimError>, time: nat)
    requires ai < |plan| && a == plan[ai]
    requires StudentSoFar(f, seat, firstSession, plan, base, d, ai, events, currentTime, sessionId)
    requires start == currentTime + d.dayGap(seat.studentId, ai)
    requires run == Collect(QuestionRun(seat, sessionId, a, ai, |a.questions|, start, d).calls, f)
    requires run.Ok? ==> time == QuestionRun(seat, sessionId, a, ai, |a.questions|, start, d).time
    ensures run.Err? ==> run == Collect(PlanRun(seat, firstSession, plan, |plan|, base, d).calls, f)
    ensures run.Ok? ==> StudentSoFar(f, seat, firstSession, plan, base, d, ai + 1, events + run.value, time, sessionId + 1)
  {
    PlanRunStep(seat, firstSession, plan, ai, base, d, sessionId, start);
    var done := PlanRun(seat, firstSession, plan, ai, base, d).calls;
    var next := QuestionRun(seat, sessionId, a, ai, |a.questions|, start, d).calls;
    var both := PlanRun(seat, firstSession, plan, ai + 1, base, d).calls;
    assert both == done + next;
    CollectConcat(done, next, f);
    assert Collect(both, f) == if run.Err? then run else Ok(events + run.value);
    if run.Err? {
      PlanRunErr(seat, firstSession, plan, ai + 1, |plan|, base, d, f);
    }
  }

  /** The body of `for (studentNum …)` for one student: the clock starts at `base`
      (`config.baseStartTime`), advances by the drawn gap before each assignment, and each
      assignment takes the next session. */
  method RecordStudent(makeEvent: Call -> Result<SimulatedEvent, SimError>,
                        seat: Seat, firstSession: nat, plan: seq<Assignment>, base: nat, d: Draws)
    returns (r: Result<seq<SimulatedEvent>, SimError>)
    ensures r == Collect(PlanRun(seat, firstSession, plan, |plan|, base, d).calls, makeEvent)
  {
    var events: seq<SimulatedEvent> := [];
    var currentTime: nat := base;
    var sessionId: nat := firstSession;
    for ai := 0 to |plan|
      invariant StudentSoFar(makeEvent, seat, firstSession, plan, base, d, ai, events, currentTime, sessionId)
    {
      var run, time := RecordNextAssignment(makeEvent, seat, firstSession, plan, base, d, ai, events, currentTime, sessionId);
      if run.Err? {
        r := run;
        return;
      }
      events, currentTime, sessionId := events + run.value, time, sessionId + 1;
    }
    r := Ok(events);
  }

  /** One assignment of the student loop: the gap before it, its questions, and the
      state of the loop after it. */
  method RecordNextAssignment(makeEvent: Call -> Result<SimulatedEvent, SimError>, seat: Seat, firstSession: nat,
                    plan: seq<Assignment>, base: nat, d: Draws,
                    ai: nat, events: seq<SimulatedEvent>, currentTime: nat, sessionId: nat)
    returns (run: Result<seq<SimulatedEvent>, SimError>, time: nat)
    requires ai < |plan|
    requires StudentSoFar(makeEvent, seat, firstSession, plan, base, d, ai, events, currentTime, sessionId)
    ensures run.Err? ==> run == Collect(PlanRun(seat, firstSession, plan, |plan|, base, d).calls, makeEvent)
    ensures run.Ok? ==> StudentSoFar(makeEvent, seat, firstSession, plan, base, d, ai + 1, events + run.value, time, sessionId + 1)
  {
    var a, start := plan[ai], currentTime + d.dayGap(seat.studentId, ai);
    run, time := RecordAssignment(makeEvent, seat, sessionId, a, ai, start, d);
    AssignmentStep(makeEvent, seat, firstSession, plan, base, d, ai, a, start, events, currentTime, sessionId, run, time);
  }

  // ---------------------------------------------------------------------------
  // Classes and the whole study, student by student and class by class

  /** The events of the first `k` students of a class, student after student: the
      events of each student's calls, or the first error. */
  function ClassEvents<U>(plans: seq<seq<Assignment>>, classId: nat, teacherId: nat, k: nat, base: nat, d: Draws,
                          f: Call -> Result<U, SimError>): Result<seq<U>, SimError>
    requires 1 <= classId && StudentNumber(classId, k) <= |plans|
  {
    if k == 0 then Ok([])
    else
      var prev := ClassEvents(plans, classId, teacherId, k - 1, base, d, f);
      if prev.Err? then prev
      else
        var next := Collect(StudentCalls(plans, classId, teacherId, k - 1, base, d), f);
        if next.Err? then next else Ok(prev.value + next.value)
  }

  /** The events of the first `n` classes, class after class: a class without a teacher
      is an error (`No teacher assigned to class …`); otherwise the events of its students,
      or the first error. */
  function StudyEvents<U>(plans: seq<seq<Assignment>>, n: nat, base: nat, d: Draws,
                          f: Call -> Result<U, SimError>): Result<seq<U>, SimError>
    requires StudentsPerClass * n <= |plans|
  {
    if n == 0 then Ok([])
    else
      var prev := StudyEvents(plans, n - 1, base, d, f);
      if prev.Err? then prev
      else
        match FindTeacher(TeacherAssignments, n)
        case None => Err(NoTeacher(n))
        case Some(t) =>
          var next := ClassEvents(plans, n, t, StudentsPerClass, base, d, f);
          if next.Err? then next else Ok(prev.value + next.value)
  }

  /** Once the first `m` students of a class fail, the class fails with the same error. */
  lemma {:induction false} ClassEventsErr<U>(plans: seq<seq<Assignment>>, classId: nat, teacherId: nat,
                                             m: nat, n: nat, base: nat, d: Draws, f: Call -> Result<U, SimError>)
    requires 1 <= classId && m <= n && StudentNumber(classId, n) <= |plans|
    requires ClassEvents(plans, classId, teacherId, m, base, d, f).Err?
    ensures ClassEvents(plans, classId, teacherId, n, base, d, f) == ClassEvents(plans, classId, teacherId, m, base, d, f)
    decreases n
  {
    if m < n {
      ClassEventsErr(plans, classId, teacherId, m, n - 1, base, d, f);
    }
  }

  /** Once the first `m` classes fail, the study fails with the same error. */
  lemma {:induction false} StudyEventsErr<U>(plans: seq<seq<Assignment>>, m: nat, n: nat, base: nat, d: Draws,
                                             f: Call -> Result<U, SimError>)
    requires m <= n && StudentsPerClass * n <= |plans|
    requires StudyEvents(plans, m, base, d, f).Err?
    ensures StudyEvents(plans, n, base, d, f) == StudyEvents(plans, m, base, d, f)
    decreases n
  {
    if m < n {
      StudyEventsErr(plans, m, n - 1, base, d, f);
    }
  }

  /** The state of the student loop of class `classId` after `k` students: the session
      counter has moved past the sessions of every student so far, and the events are
      those of the class's first `k` students. */
  ghost predicate ClassSoFar<U>(plans: seq<seq<Assignment>>, base: nat, d: Draws, f: Call -> Result<U, SimError>,
                                classId: nat, teacherId: nat, k: nat, events: seq<U>, sessionId: nat)
  {
    && 1 <= classId && StudentNumber(classId, StudentsPerClass) <= |plans| && k <= StudentsPerClass
    && sessionId == SessionsBefore(plans, StudentNumber(classId, k)) + 1
    && Ok(events) == ClassEvents(plans, classId, teacherId, k, base, d, f)
  }

  /** The calls of the student at position `k` of a class are those of the calendar run
      the class loop starts for them. */
  lemma StudentCallsAt(plans: seq<seq<Assignment>>, base: nat, d: Draws, classId: nat, teacherId: nat, k: nat,
                       seat: Seat, plan: seq<Assignment>, sessionId: nat)
    requires 1 <= classId && StudentNumber(classId, k) < |plans|
    requires seat == Seat(StudentNumber(classId, k) + 1, classId, teacherId)
    requires plan == plans[StudentNumber(classId, k)]
    requires sessionId == SessionsBefore(plans, StudentNumber(classId, k)) + 1
    ensures StudentCalls(plans, classId, teacherId, k, base, d) == PlanRun(seat, sessionId, plan, |plan|, base, d).calls
  {
  }

  /** One student of the class loop: their events extend those of the students before
      them, or their error is that of the whole class. */
  lemma StudentStep<U>(plans: seq<seq<Assignment>>, base: nat, d: Draws, f: Call -> Result<U, SimError>,
                       classId: nat, teacherId: nat, k: nat,
                       plan: seq<Assignment>, events: seq<U>, sessionId: nat, run: Result<seq<U>, SimError>)
    requires ClassSoFar(plans, base, d, f, classId, teacherId, k, events, sessionId) && k < StudentsPerClass
    requires plan == plans[StudentNumber(classId, k)]
    requires run == Collect(StudentCalls(plans, classId, teacherId, k, base, d), f)
    ensures run.Err? ==> run == ClassEvents(plans, classId, teacherId, StudentsPerClass, base, d, f)
    ensures run.Ok? ==> ClassSoFar(plans, base, d, f, classId, teacherId, k + 1, events + run.value, sessionId + |plan|)
  {
    var sn := StudentNumber(classId, k);
    assert StudentNumber(classId, k + 1) == sn + 1;
    assert SessionsBefore(plans, sn + 1) == SessionsBefore(plans, sn) + |plan|;
    assert ClassEvents(plans, classId, teacherId, k + 1, base, d, f) == if run.Err? then run else Ok(events + run.value);
    if run.Err? {
      ClassEventsErr(plans, classId, teacherId, k + 1, StudentsPerClass, base, d, f);
    }
  }

  /** The student loop of one class: each of its students in turn, numbered on from the
      students of the classes before, each calendar starting in the session after the
      previous student's. Returns the class's events and the counters' new values. */
  method RecordClass(makeEvent: Call -> Result<SimulatedEvent, SimError>,
                      plans: seq<seq<Assignment>>, base: nat, d: Draws, classId: nat, teacherId: nat,
                     firstStudent: nat, firstSession: nat)
    returns (r: Result<seq<SimulatedEvent>, SimError>, studentId: nat, sessionId: nat)
    requires 1 <= classId && StudentNumber(classId, StudentsPerClass) <= |plans|
    requires firstStudent == StudentNumber(classId, 0) + 1
    requires firstSession == SessionsBefore(plans, StudentNumber(classId, 0)) + 1
    ensures r == ClassEvents(plans, classId, teacherId, StudentsPerClass, base, d, makeEvent)
    ensures r.Ok? ==> studentId == StudentNumber(classId, StudentsPerClass) + 1
    ensures r.Ok? ==> sessionId == SessionsBefore(plans, StudentNumber(classId, StudentsPerClass)) + 1
  {
    var events: seq<SimulatedEvent> := [];
    studentId, sessionId := firstStudent, firstSession;
    for k := 0 to StudentsPerClass
      invariant studentId == StudentNumber(classId, k) + 1
      invariant ClassSoFar(plans, base, d, makeEvent, classId, teacherId, k, events, sessionId)
    {
      var seat, plan := Seat(studentId, classId, teacherId), plans[studentId - 1];
      var run := RecordStudent(makeEvent, seat, sessionId, plan, base, d);
      StudentCallsAt(plans, base, d, classId, teacherId, k, seat, plan, sessionId);
      StudentStep(plans, base, d, makeEvent, classId, teacherId, k, plan, events, sessionId, run);
      if run.Err? {
        return run, studentId, sessionId;
      }
      events := events + run.value;
      sessionId := sessionId + |plan|;
      studentId := studentId + 1;
    }
    r := Ok(events);
  }

  /** One class of the study loop: its events extend those of the classes before it, or
      its error is that of the whole study. */
  lemma ClassStep<U>(plans: seq<seq<Assignment>>, base: nat, d: Draws, f: Call -> Result<U, SimError>,
                     classId: nat, teacherId: nat, events: seq<U>, run: Result<seq<U>, SimError>)
    requires 1 <= classId <= NumClasses && |plans| == NumClasses * StudentsPerClass
    requires Ok(events) == StudyEvents(plans, classId - 1, base, d, f)
    requires FindTeacher(TeacherAssignments, classId) == Some(teacherId)
    requires run == ClassEvents(plans, classId, teacherId, StudentsPerClass, base, d, f)
    ensures run.Err? ==> run == StudyEvents(plans, NumClasses, base, d, f)
    ensures run.Ok? ==> Ok(events + run.value) == StudyEvents(plans, classId, base, d, f)
    ensures StudentNumber(classId, StudentsPerClass) == StudentNumber(classId + 1, 0)
  {
    if run.Err? {
      StudyEventsErr(plans, classId, NumClasses, base, d, f);
    }
  }

  /** A class without a teacher stops a study of `n` classes with its error. */
  lemma NoTeacherStep<U>(plans: seq<seq<Assignment>>, base: nat, d: Draws, f: Call -> Result<U, SimError>,
                         classId: nat, n: nat, events: seq<U>)
    requires 1 <= classId <= n && StudentsPerClass * n <= |plans|
    requires Ok(events) == StudyEvents(plans, classId - 1, base, d, f)
    requires FindTeacher(TeacherAssignments, classId).None?
    ensures Err(NoTeacher(classId)) == StudyEvents(plans, n, base, d, f)
  {
    StudyEventsErr(plans, classId, n, base, d, f);
  }

  /** The loops of `simulateStudy`, for any event maker: class after class, the teacher is
      looked up (a class without one is an error), then each student's calendar is run;
      the result is every event in order, or the first error. */
  method RunStudy(makeEvent: Call -> Result<SimulatedEvent, SimError>,
                  plans: seq<seq<Assignment>>, baseStartTime: nat, d: Draws)
    returns (r: Result<seq<SimulatedEvent>, SimError>)
    requires |plans| == NumClasses * StudentsPerClass
    ensures r == StudyEvents(plans, NumClasses, baseStartTime, d, makeEvent)
  {
    var events: seq<SimulatedEvent> := [];
    var studentId: nat := 1;
    var sessionId: nat := 1;
    for classId := 1 to NumClasses + 1
      invariant studentId == StudentNumber(classId, 0) + 1
      invariant sessionId == SessionsBefore(plans, StudentNumber(classId, 0)) + 1
      invariant Ok(events) == StudyEvents(plans, classId - 1, baseStartTime, d, makeEvent)
    {
      var teacherId := FindTeacher(TeacherAssignments, classId);
      if teacherId.None? {
        NoTeacherStep(plans, baseStartTime, d, makeEvent, classId, NumClasses, events);
        return Err(NoTeacher(classId));
      }
      var t := teacherId.value;
      var run, nextStudent, nextSession := RecordClass(makeEvent, plans, baseStartTime, d, classId, t, studentId, sessionId);
      ClassStep(plans, baseStartTime, d, makeEvent, classId, t, events, run);
      if run.Err? {
        return run;
      }
      events := events + run.value;
      studentId, sessionId := nextStudent, nextSession;
    }
    r := Ok(events);
  }

  /** `simulateStudy`: `plans[s - 1]` is the calendar `generateStudentAssignment` draws for
      student `s`, and each event is made by `createSimulatedEvent` (as written under
      `AsWritten`). */
  method SimulateStudy(rev: Revision, plans: seq<seq<Assignment>>, baseStartTime: nat, d: Draws)
    returns (r: Result<seq<SimulatedEvent>, SimError>)
    requires |plans| == NumClasses * StudentsPerClass
    ensures r == StudyEvents(plans, NumClasses, baseStartTime, d, EventOf(rev))
  {
    r := RunStudy(EventOf(rev), plans, baseStartTime, d);
  }
}
