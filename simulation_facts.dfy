/** Properties of the simulation model (nsfStudy2/simulateStudy.ts): what the class-by-class
    run produces in terms of the flat list of calls, the teacher table, the counters, and
    the fields copied into each event. */
module SimulationFacts {
  import opened Wrappers
  import opened Text
  import opened StudyTypes
  import opened Seqs
  import opened QuestionBank
  import opened Simulation
  import Calendar
  import CalendarFacts

  // ---------------------------------------------------------------------------
  // Stages, responses and events

  /** The assignment types map to the four distinct stages "pre-test", "learning",
      "post-test" and "post-post-test". */
  lemma StagesOfTypes(t: AssignmentType, u: AssignmentType)
    ensures MapAssignmentType(PretestType) == "pre-test" && MapAssignmentType(LearningType) == "learning"
    ensures MapAssignmentType(PosttestType) == "post-test" && MapAssignmentType(PostposttestType) == "post-post-test"
    ensures MapAssignmentType(t) == MapAssignmentType(u) <==> t == u
  {
  }

  /** The true/false branch as written answers "true" when it means to answer wrongly to
      a question whose key is the boolean `true`: it submits the key and is graded
      incorrect. */
  lemma TrueFalseAsWrittenSubmitsKey(q: Question)
    requires q.qtype == "tof" && q.answerKey == FlagKey(true)
    ensures GenerateSimulatedResponseAsWritten(q, false) == Response(q.answerKey.ToString(), Incorrect)
  {
  }

  /** The corrected response differs from the one as written exactly on an incorrect
      answer to a true/false question whose key is the boolean `true`. */
  lemma ResponseCorrection(q: Question, isCorrect: bool)
    ensures GenerateSimulatedResponseAsWritten(q, isCorrect) != GenerateSimulatedResponse(q, isCorrect)
        <==> q.qtype == "tof" && !isCorrect && q.answerKey == FlagKey(true)
  {
  }

  /** For a question of the placeholder bank, the event's learning objective is the last
      dash-separated field of its identifier: `100 + setNumber` in decimal. */
  lemma PlaceholderEventObjective(lo: nat, setNumber: nat, t: QType, q: Question, a: Assignment, e: SimulatedEvent,
                                  studentId: nat, sessionId: nat, classId: nat, teacherId: nat,
                                  currentTime: nat, responseTime: nat, isCorrect: bool, rev: Revision)
    requires q.id == PlaceholderId(lo, setNumber, t)
    requires CreateSimulatedEvent(rev, studentId, sessionId, q, a, classId, teacherId,
                                  currentTime, responseTime, isCorrect) == Ok(e)
    ensures e.kcLearningObjective == NatToString(100 + setNumber)
  {
    CreatedEventFields(rev, studentId, sessionId, q, a, classId, teacherId, currentTime, responseTime, isCorrect);
    PlaceholderIdFields(lo, setNumber, t);
  }

  /** A bank question stores a long type label ("Multiple Choice", "True or False", …),
      which matches neither the "mcq" nor the "tof" case of the response rule: under
      either reading an incorrect answer submits "incorrect answer" and a correct one the
      key. */
  lemma BankQuestionResponse(rev: Revision, q: Question, lo: nat, setNumber: nat, t: QType, isCorrect: bool)
    requires IsPlaceholder(q, lo, setNumber, t)
    ensures !isCorrect ==> Respond(rev, q, isCorrect) == Response("incorrect answer", Incorrect)
    ensures isCorrect ==> Respond(rev, q, isCorrect) == Response(q.answerKey.ToString(), Correct)
  {
    assert q.qtype != "mcq" && q.qtype != "tof" by {
      assert q.qtype == t.Label();
    }
  }

  // ---------------------------------------------------------------------------
  // The run and the flat list of calls

  /** The events of a class, student after student, are those of its calls in order. */
  lemma {:induction false} ClassEventsFlat<U>(plans: seq<seq<Assignment>>, classId: nat, teacherId: nat, k: nat,
                                              base: nat, d: Draws, f: Call -> Result<U, SimError>)
    requires 1 <= classId && StudentNumber(classId, k) <= |plans|
    ensures ClassEvents(plans, classId, teacherId, k, base, d, f) == Collect(ClassCalls(plans, classId, teacherId, k, base, d), f)
  {
    if k > 0 {
      ClassEventsFlat(plans, classId, teacherId, k - 1, base, d, f);
      CollectConcat(ClassCalls(plans, classId, teacherId, k - 1, base, d), StudentCalls(plans, classId, teacherId, k - 1, base, d), f);
    }
  }

  /** When the first `n` classes all have a teacher, their events, class after class, are
      those of all their calls in order. */
  lemma {:induction false} StudyEventsFlat<U>(plans: seq<seq<Assignment>>, n: nat, base: nat, d: Draws,
                                              f: Call -> Result<U, SimError>)
    requires StudentsPerClass * n <= |plans| && ClassesTaught(n)
    ensures StudyEvents(plans, n, base, d, f) == Collect(StudyCalls(plans, n, base, d), f)
  {
    if n > 0 {
      var m := n - 1;
      assert StudentsPerClass * m <= |plans| && ClassesTaught(m);
      StudyEventsFlat(plans, m, base, d, f);
      StudyStep(plans, n, base, d, f);
    }
  }

  /** Class `n` adds its calls after those of the classes before it. */
  lemma StudyStep<U>(plans: seq<seq<Assignment>>, n: nat, base: nat, d: Draws, f: Call -> Result<U, SimError>)
    requires 0 < n && StudentsPerClass * n <= |plans| && ClassesTaught(n)
    requires StudyEvents(plans, n - 1, base, d, f) == Collect(StudyCalls(plans, n - 1, base, d), f)
    ensures StudyEvents(plans, n, base, d, f) == Collect(StudyCalls(plans, n, base, d), f)
  {
    var found := FindTeacher(TeacherAssignments, n);
    assert found.Some?;
    var t := found.value;
    ClassEventsFlat(plans, n, t, StudentsPerClass, base, d, f);
    var before, cls := StudyCalls(plans, n - 1, base, d), ClassCalls(plans, n, t, StudentsPerClass, base, d);
    assert StudyCalls(plans, n, base, d) == before + cls;
    CollectConcat(before, cls, f);
  }

  /** A class without a teacher among the first `n` makes the run fail. */
  lemma {:induction false} StudyEventsUntaught<U>(plans: seq<seq<Assignment>>, n: nat, base: nat, d: Draws,
                                                  f: Call -> Result<U, SimError>)
    requires StudentsPerClass * n <= |plans| && !ClassesTaught(n)
    ensures StudyEvents(plans, n, base, d, f).Err?
  {
    if ClassesTaught(n - 1) {
      assert FindTeacher(TeacherAssignments, n).None?;
    } else {
      StudyEventsUntaught(plans, n - 1, base, d, f);
    }
  }

  // ---------------------------------------------------------------------------
  // Teachers

  /** With the configured table, classes 1–3 are taught by teacher 101 and classes 4–6 by
      teacher 102; no other class has a teacher. */
  lemma TeacherTable(classId: nat)
    ensures FindTeacher(TeacherAssignments, classId)
         == if 1 <= classId <= 3 then Some(101) else if 4 <= classId <= 6 then Some(102) else None
  {
    var t: seq<(nat, seq<nat>)> := TeacherAssignments;
    var rest: seq<(nat, seq<nat>)> := t[1..];
    assert rest[0] == t[1] && rest[1..] == [];
    assert classId in t[0].1 <==> 1 <= classId <= 3;
    assert classId in rest[0].1 <==> 4 <= classId <= 6;
    assert FindTeacher(rest[1..], classId) == None;
    assert FindTeacher(rest, classId) == if classId in rest[0].1 then Some(102) else None;
    assert FindTeacher(t, classId) == if classId in t[0].1 then Some(101) else FindTeacher(rest, classId);
  }

  /** Every class of the study has a teacher, so `No teacher assigned to class …` is never
      raised. */
  lemma TeachersFoundHolds()
    ensures TeachersFound()
  {
    forall c | 1 <= c <= NumClasses ensures FindTeacher(TeacherAssignments, c).Some? {
      TeacherTable(c);
    }
  }

  /** The result of `simulateStudy` is the events of all calls of the study, in order, or
      the error of the first question without a condition. */
  lemma SimulatedEventsAreCallEvents<U>(plans: seq<seq<Assignment>>, base: nat, d: Draws,
                                        f: Call -> Result<U, SimError>)
    requires |plans| == NumClasses * StudentsPerClass
    ensures StudyEvents(plans, NumClasses, base, d, f) == Collect(StudyCalls(plans, NumClasses, base, d), f)
  {
    TeachersFoundHolds();
    StudyEventsFlat(plans, NumClasses, base, d, f);
  }

  /** Collecting fails exactly at the first element on which `f` fails, with its error. */
  lemma {:induction false} CollectFirstErr<T, U>(xs: seq<T>, f: T -> Result<U, SimError>)
    ensures Collect(xs, f).Err? ==>
              exists i | 0 <= i < |xs| :: && f(xs[i]).Err? && Collect(xs, f) == Err(f(xs[i]).error)
                                          && forall j | 0 <= j < i :: f(xs[j]).Ok?
  {
    if xs != [] {
      var init := xs[..|xs| - 1];
      CollectFirstErr(init, f);
      assert forall j | 0 <= j < |init| :: init[j] == xs[j];
      if Collect(init, f).Ok? && Collect(xs, f).Err? {
        CollectAt(init, f);
        assert f(xs[|xs| - 1]).Err?;
      }
    }
  }

  /** The events of a list of calls exist exactly when every call's question has a
      condition; otherwise the error names the first question without one, with the type
      and day of its assignment. */
  lemma CallEventsError(rev: Revision, calls: seq<Call>)
    ensures Collect(calls, EventOf(rev)).Ok? <==> Answerable(calls)
    ensures Collect(calls, EventOf(rev)).Err? ==>
              exists i | 0 <= i < |calls| ::
                && calls[i].question.condition.None?
                && (forall j | 0 <= j < i :: calls[j].question.condition.Some?)
                && Collect(calls, EventOf(rev))
                   == Err(MissingCondition(calls[i].question.id, calls[i].assignment.atype, calls[i].assignment.day))
  {
    var f := EventOf(rev);
    CollectAt(calls, f);
    CollectFirstErr(calls, f);
    forall i | 0 <= i < |calls| ensures f(calls[i]).Ok? <==> calls[i].question.condition.Some? {
      EventOfCall(rev, calls[i]);
    }
    if Collect(calls, f).Err? {
      var i :| 0 <= i < |calls| && f(calls[i]).Err? && Collect(calls, f) == Err(f(calls[i]).error)
               && forall j | 0 <= j < i :: f(calls[j]).Ok?;
      EventOfCall(rev, calls[i]);
    }
  }

  /** One call's event exists exactly when its question has a condition; otherwise the
      error names the question and its assignment. */
  lemma EventOfCall(rev: Revision, c: Call)
    ensures EventOf(rev)(c).Ok? <==> c.question.condition.Some?
    ensures EventOf(rev)(c).Err? ==>
              EventOf(rev)(c).error == MissingCondition(c.question.id, c.assignment.atype, c.assignment.day)
  {
    CreatedEventFields(rev, c.seat.studentId, c.sessionId, c.question, c.assignment, c.seat.classId,
                       c.seat.teacherId, c.start, c.responseTime, c.isCorrect);
  }

  // ---------------------------------------------------------------------------
  // Calls of one assignment and of one calendar

  /** An assignment's run makes one call per question. */
  lemma {:induction false} QuestionRunLength(seat: Seat, sessionId: nat, a: Assignment, ai: nat, n: nat,
                                             start: nat, d: Draws)
    requires n <= |a.questions|
    ensures |QuestionRun(seat, sessionId, a, ai, n, start, d).calls| == n
  {
    if n > 0 {
      QuestionRunLength(seat, sessionId, a, ai, n - 1, start, d);
    }
  }

  /** A calendar's run makes one call per question of its assignments. */
  lemma {:induction false} PlanRunLength(seat: Seat, firstSession: nat, plan: seq<Assignment>, n: nat,
                                         base: nat, d: Draws)
    requires n <= |plan|
    ensures |PlanRun(seat, firstSession, plan, n, base, d).calls| == QuestionsBefore(plan, n)
  {
    if n > 0 {
      PlanRunLength(seat, firstSession, plan, n - 1, base, d);
      var prev := PlanRun(seat, firstSession, plan, n - 1, base, d);
      var a := plan[n - 1];
      QuestionRunLength(seat, firstSession + n - 1, a, n - 1, |a.questions|,
                        prev.time + d.dayGap(seat.studentId, n - 1), d);
    }
  }

  /** Call `i` of an assignment asks its `i`-th question, for the given student, class,
      teacher and session, with the drawn response time and correctness. */
  lemma {:induction false} QuestionRunCallAt(seat: Seat, sessionId: nat, a: Assignment, ai: nat, n: nat,
                                             start: nat, d: Draws, i: nat)
    requires i < n <= |a.questions|
    ensures var calls := QuestionRun(seat, sessionId, a, ai, n, start, d).calls;
      |calls| == n && var c := calls[i];
      && c.seat == seat && c.sessionId == sessionId && c.assignment == a && c.question == a.questions[i]
      && c.responseTime == d.responseTime(seat.studentId, ai, i) && c.isCorrect == d.correct(seat.studentId, ai, i)
    decreases n
  {
    QuestionRunLength(seat, sessionId, a, ai, n, start, d);
    QuestionRunLength(seat, sessionId, a, ai, n - 1, start, d);
    if i < n - 1 {
      QuestionRunCallAt(seat, sessionId, a, ai, n - 1, start, d, i);
      var prev := QuestionRun(seat, sessionId, a, ai, n - 1, start, d);
      assert QuestionRun(seat, sessionId, a, ai, n, start, d).calls[i] == prev.calls[i];
    }
  }

  /** The start times of an assignment's calls never go back, and lie between `start` and
      the final clock. */
  lemma {:induction false} QuestionRunTimes(seat: Seat, sessionId: nat, a: Assignment, ai: nat, n: nat,
                                            start: nat, d: Draws)
    requires n <= |a.questions|
    ensures var r := QuestionRun(seat, sessionId, a, ai, n, start, d);
      && |r.calls| == n
      && start <= r.time
      && (forall i | 0 <= i < n :: start <= r.calls[i].start <= r.time)
      && (forall i, j | 0 <= i <= j < n :: r.calls[i].start <= r.calls[j].start)
  {
    if n > 0 {
      QuestionRunTimes(seat, sessionId, a, ai, n - 1, start, d);
      QuestionRunLength(seat, sessionId, a, ai, n, start, d);
      QuestionRunLength(seat, sessionId, a, ai, n - 1, start, d);
      var prev := QuestionRun(seat, sessionId, a, ai, n - 1, start, d);
      var r := QuestionRun(seat, sessionId, a, ai, n, start, d);
      assert forall i | 0 <= i < n - 1 :: r.calls[i] == prev.calls[i];
      assert r.calls[n - 1].start == prev.time;
    }
  }

  /** More assignments never mean fewer questions. */
  lemma {:induction false} QuestionsBeforeMonotone(plan: seq<Assignment>, m: nat, n: nat)
    requires m <= n <= |plan|
    ensures QuestionsBefore(plan, m) <= QuestionsBefore(plan, n)
    decreases n
  {
    if m < n {
      QuestionsBeforeMonotone(plan, m, n - 1);
    }
  }

  /** The calls of a calendar are those of its assignments one after the other: the
      `i`-th question of assignment `j` is call `QuestionsBefore(plan, j) + i`, made in
      session `firstSession + j`, for the same seat throughout. */
  lemma {:induction false} PlanRunCallAt(seat: Seat, firstSession: nat, plan: seq<Assignment>, n: nat,
                                         base: nat, d: Draws, j: nat, i: nat)
    requires j < n <= |plan| && i < |plan[j].questions|
    ensures var calls := PlanRun(seat, firstSession, plan, n, base, d).calls;
      && QuestionsBefore(plan, j) + i < |calls|
      && calls[QuestionsBefore(plan, j) + i].seat == seat
      && calls[QuestionsBefore(plan, j) + i].sessionId == firstSession + j
      && calls[QuestionsBefore(plan, j) + i].assignment == plan[j]
      && calls[QuestionsBefore(plan, j) + i].question == plan[j].questions[i]
    decreases n
  {
    var prev := PlanRun(seat, firstSession, plan, n - 1, base, d);
    var a := plan[n - 1];
    var start := prev.time + d.dayGap(seat.studentId, n - 1);
    var qs := QuestionRun(seat, firstSession + n - 1, a, n - 1, |a.questions|, start, d);
    var calls := PlanRun(seat, firstSession, plan, n, base, d).calls;
    assert calls == prev.calls + qs.calls;
    PlanRunLength(seat, firstSession, plan, n - 1, base, d);
    QuestionRunLength(seat, firstSession + n - 1, a, n - 1, |a.questions|, start, d);
    var k := QuestionsBefore(plan, j) + i;
    if j < n - 1 {
      PlanRunCallAt(seat, firstSession, plan, n - 1, base, d, j, i);
      QuestionsBeforeMonotone(plan, j + 1, n - 1);
      assert calls[k] == prev.calls[k];
    } else {
      QuestionRunCallAt(seat, firstSession + n - 1, a, n - 1, |a.questions|, start, d, i);
      assert calls[k] == qs.calls[i];
    }
  }

  // ---------------------------------------------------------------------------
  // Students one after the other

  /** Student `s0 + 1` of the study (from 1) sits in class `ClassOf(s0 + 1)`. */
  lemma ClassOfStudentNumber(classId: nat, j: nat)
    requires 1 <= classId && j < StudentsPerClass
    ensures ClassOf(StudentNumber(classId, j) + 1) == classId
  {
    assert StudentNumber(classId, j) == StudentsPerClass * (classId - 1) + j;
  }

  /** The calls of student `s0 + 1` (numbered from 1 across the study), in the class they
      sit in and with that class's teacher; their calendar starts in the session after
      those of all students before them. */
  function SeatedCalls(plans: seq<seq<Assignment>>, s0: nat, base: nat, d: Draws): seq<Call>
    requires s0 < |plans| && s0 < NumClasses * StudentsPerClass
  {
    var c := ClassOf(s0 + 1);
    TeacherTable(c);
    PlanRun(Seat(s0 + 1, c, FindTeacher(TeacherAssignments, c).value), SessionsBefore(plans, s0) + 1,
            plans[s0], |plans[s0]|, base, d).calls
  }

  /** The calls of students 1 to `m`, one student after the other. */
  function StudentsCalls(plans: seq<seq<Assignment>>, m: nat, base: nat, d: Draws): seq<Call>
    requires m <= |plans| && m <= NumClasses * StudentsPerClass
  {
    if m == 0 then [] else StudentsCalls(plans, m - 1, base, d) + SeatedCalls(plans, m - 1, base, d)
  }

  /** The student at position `j` of a class is student `StudentNumber(classId, j) + 1` of
      the study. */
  lemma StudentCallsSeated(plans: seq<seq<Assignment>>, classId: nat, teacherId: nat, j: nat, base: nat, d: Draws)
    requires 1 <= classId <= NumClasses && j < StudentsPerClass && StudentNumber(classId, j) < |plans|
    requires FindTeacher(TeacherAssignments, classId) == Some(teacherId)
    ensures StudentCalls(plans, classId, teacherId, j, base, d) == SeatedCalls(plans, StudentNumber(classId, j), base, d)
  {
    ClassOfStudentNumber(classId, j);
  }

  /** One more student of a class is one more student of the study. */
  lemma ClassCallsNext(plans: seq<seq<Assignment>>, classId: nat, teacherId: nat, k: nat, base: nat, d: Draws)
    requires 1 <= classId <= NumClasses && 0 < k <= StudentsPerClass && StudentNumber(classId, k) <= |plans|
    requires FindTeacher(TeacherAssignments, classId) == Some(teacherId)
    ensures var next := SeatedCalls(plans, StudentNumber(classId, k - 1), base, d);
      && ClassCalls(plans, classId, teacherId, k, base, d) == ClassCalls(plans, classId, teacherId, k - 1, base, d) + next
      && StudentsCalls(plans, StudentNumber(classId, k), base, d)
         == StudentsCalls(plans, StudentNumber(classId, k - 1), base, d) + next
  {
    var s0 := StudentNumber(classId, k - 1);
    assert StudentNumber(classId, k) == s0 + 1;
    StudentCallsSeated(plans, classId, teacherId, k - 1, base, d);
    StudentsCallsSnoc(plans, s0, base, d);
  }

  lemma StudentsCallsSnoc(plans: seq<seq<Assignment>>, s0: nat, base: nat, d: Draws)
    requires s0 < |plans| && s0 < NumClasses * StudentsPerClass
    ensures StudentsCalls(plans, s0 + 1, base, d) == StudentsCalls(plans, s0, base, d) + SeatedCalls(plans, s0, base, d)
  {
  }

  /** The students of a class are the next ones in the study's numbering. */
  lemma {:induction false} ClassCallsByStudent(plans: seq<seq<Assignment>>, classId: nat, teacherId: nat, k: nat,
                                               base: nat, d: Draws)
    requires 1 <= classId <= NumClasses && k <= StudentsPerClass && StudentNumber(classId, k) <= |plans|
    requires FindTeacher(TeacherAssignments, classId) == Some(teacherId)
    ensures StudentsCalls(plans, StudentNumber(classId, 0), base, d) + ClassCalls(plans, classId, teacherId, k, base, d)
         == StudentsCalls(plans, StudentNumber(classId, k), base, d)
  {
    var first := StudentsCalls(plans, StudentNumber(classId, 0), base, d);
    if k == 0 {
      ConcatNil(first);
    } else {
      ClassCallsByStudent(plans, classId, teacherId, k - 1, base, d);
      ClassCallsNext(plans, classId, teacherId, k, base, d);
      var done := ClassCalls(plans, classId, teacherId, k - 1, base, d);
      var next := SeatedCalls(plans, StudentNumber(classId, k - 1), base, d);
      ConcatAssoc(first, done, next);
    }
  }

  /** The study's calls are those of students 1, 2, … in turn, with no student skipped or
      repeated, each in the class `ClassOf` gives and with that class's teacher. */
  lemma {:induction false} StudyCallsByStudent(plans: seq<seq<Assignment>>, n: nat, base: nat, d: Draws)
    requires n <= NumClasses && StudentsPerClass * n <= |plans|
    ensures ClassesTaught(n) && StudyCalls(plans, n, base, d) == StudentsCalls(plans, StudentsPerClass * n, base, d)
  {
    TeachersFoundHolds();
    if n > 0 {
      StudyCallsByStudent(plans, n - 1, base, d);
      var t := FindTeacher(TeacherAssignments, n).value;
      ClassCallsByStudent(plans, n, t, StudentsPerClass, base, d);
      assert StudentNumber(n, 0) == StudentsPerClass * (n - 1);
      assert StudentNumber(n, StudentsPerClass) == StudentsPerClass * n;
    }
  }

  /** Students 1 to `m` make one call per question of their calendars. */
  lemma {:induction false} StudentsCallsCount(plans: seq<seq<Assignment>>, m: nat, base: nat, d: Draws)
    requires m <= |plans| && m <= NumClasses * StudentsPerClass
    ensures |StudentsCalls(plans, m, base, d)| == TotalQuestions(plans, m)
  {
    if m > 0 {
      StudentsCallsCount(plans, m - 1, base, d);
      var c := ClassOf(m);
      TeacherTable(c);
      PlanRunLength(Seat(m, c, FindTeacher(TeacherAssignments, c).value), SessionsBefore(plans, m - 1) + 1,
                    plans[m - 1], |plans[m - 1]|, base, d);
    }
  }

  /** The run makes one event per question of every student's calendar. */
  lemma StudyEventCount<U>(plans: seq<seq<Assignment>>, base: nat, d: Draws, f: Call -> Result<U, SimError>)
    requires |plans| == NumClasses * StudentsPerClass
    ensures |StudyCalls(plans, NumClasses, base, d)| == TotalQuestions(plans, NumClasses * StudentsPerClass)
    ensures StudyEvents(plans, NumClasses, base, d, f).Ok? ==>
              |StudyEvents(plans, NumClasses, base, d, f).value| == TotalQuestions(plans, NumClasses * StudentsPerClass)
  {
    StudyCallsByStudent(plans, NumClasses, base, d);
    StudentsCallsCount(plans, NumClasses * StudentsPerClass, base, d);
    SimulatedEventsAreCallEvents(plans, base, d, f);
    CollectLength(StudyCalls(plans, NumClasses, base, d), f);
  }

  /** When every calendar has `count` assignments, the first `m` students use
      `count * m` sessions. */
  lemma {:induction false} SessionsUniform(plans: seq<seq<Assignment>>, count: nat, m: nat)
    requires m <= |plans| && forall s | 0 <= s < |plans| :: |plans[s]| == count
    ensures SessionsBefore(plans, m) == count * m
  {
    if m > 0 {
      SessionsUniform(plans, count, m - 1);
    }
  }

  /** When every calendar has `count` assignments, question `i` of assignment `j`
      (from 0) of student `s0 + 1` is asked in session `count * s0 + j + 1`: the session
      counter moves on once per assignment and is never reset between students. */
  lemma StudentSessions(plans: seq<seq<Assignment>>, count: nat, s0: nat, base: nat, d: Draws, j: nat, i: nat)
    requires s0 < |plans| && s0 < NumClasses * StudentsPerClass
    requires forall s | 0 <= s < |plans| :: |plans[s]| == count
    requires j < count && i < |plans[s0][j].questions|
    ensures var calls := SeatedCalls(plans, s0, base, d);
      && QuestionsBefore(plans[s0], j) + i < |calls|
      && calls[QuestionsBefore(plans[s0], j) + i].seat.studentId == s0 + 1
      && calls[QuestionsBefore(plans[s0], j) + i].seat.classId == ClassOf(s0 + 1)
      && calls[QuestionsBefore(plans[s0], j) + i].sessionId == count * s0 + j + 1
      && calls[QuestionsBefore(plans[s0], j) + i].question == plans[s0][j].questions[i]
  {
    TeachersFoundHolds();
    SessionsUniform(plans, count, s0);
    var c := ClassOf(s0 + 1);
    var seat := Seat(s0 + 1, c, FindTeacher(TeacherAssignments, c).value);
    PlanRunCallAt(seat, SessionsBefore(plans, s0) + 1, plans[s0], |plans[s0]|, base, d, j, i);
  }

  // ---------------------------------------------------------------------------
  // Calendars whose questions all carry a condition

  lemma AnswerableConcat(a: seq<Call>, b: seq<Call>)
    ensures Answerable(a + b) <==> Answerable(a) && Answerable(b)
  {
    if Answerable(a + b) {
      forall i | 0 <= i < |a| ensures a[i].question.condition.Some? {
        assert (a + b)[i] == a[i];
      }
      forall i | 0 <= i < |b| ensures b[i].question.condition.Some? {
        assert (a + b)[|a| + i] == b[i];
      }
    }
    if Answerable(a) && Answerable(b) {
      forall i | 0 <= i < |a + b| ensures (a + b)[i].question.condition.Some? {
        if i < |a| {
          assert (a + b)[i] == a[i];
        } else {
          assert (a + b)[i] == b[i - |a|];
        }
      }
    }
  }

  /** An assignment whose questions all carry a condition makes only answerable calls. */
  lemma {:induction false} QuestionRunAnswerable(seat: Seat, sessionId: nat, a: Assignment, ai: nat, n: nat,
                                                 start: nat, d: Draws)
    requires n <= |a.questions| && AllConditioned(a.questions)
    ensures Answerable(QuestionRun(seat, sessionId, a, ai, n, start, d).calls)
  {
    if n > 0 {
      var prev := QuestionRun(seat, sessionId, a, ai, n - 1, start, d);
      var s, q := seat.studentId, n - 1;
      var c := Call(seat, sessionId, a, a.questions[q], prev.time, d.responseTime(s, ai, q), d.correct(s, ai, q));
      QuestionRunAnswerable(seat, sessionId, a, ai, n - 1, start, d);
      assert a.questions[q] in a.questions;
      AnswerableConcat(prev.calls, [c]);
    }
  }

  /** A calendar whose questions all carry a condition makes only answerable calls. */
  lemma {:induction false} PlanRunAnswerable(seat: Seat, firstSession: nat, plan: seq<Assignment>, n: nat,
                                             base: nat, d: Draws)
    requires n <= |plan| && Conditioned(plan)
    ensures Answerable(PlanRun(seat, firstSession, plan, n, base, d).calls)
  {
    if n > 0 {
      var prev := PlanRun(seat, firstSession, plan, n - 1, base, d);
      var a := plan[n - 1];
      var qs := QuestionRun(seat, firstSession + n - 1, a, n - 1, |a.questions|,
                            prev.time + d.dayGap(seat.studentId, n - 1), d);
      PlanRunAnswerable(seat, firstSession, plan, n - 1, base, d);
      QuestionRunAnswerable(seat, firstSession + n - 1, a, n - 1, |a.questions|,
                            prev.time + d.dayGap(seat.studentId, n - 1), d);
      AnswerableConcat(prev.calls, qs.calls);
    }
  }

  /** Students whose calendars' questions all carry a condition make only answerable
      calls. */
  lemma {:induction false} StudentsCallsAnswerable(plans: seq<seq<Assignment>>, m: nat, base: nat, d: Draws)
    requires m <= |plans| && m <= NumClasses * StudentsPerClass
    requires forall s | 0 <= s < |plans| :: Conditioned(plans[s])
    ensures Answerable(StudentsCalls(plans, m, base, d))
  {
    if m > 0 {
      StudentsCallsAnswerable(plans, m - 1, base, d);
      var c := ClassOf(m);
      TeacherTable(c);
      PlanRunAnswerable(Seat(m, c, FindTeacher(TeacherAssignments, c).value), SessionsBefore(plans, m - 1) + 1,
                        plans[m - 1], |plans[m - 1]|, base, d);
      AnswerableConcat(StudentsCalls(plans, m - 1, base, d), SeatedCalls(plans, m - 1, base, d));
    }
  }

  /** When every calendar has a condition on each of its questions, `simulateStudy`
      succeeds, with one event per question of the study. */
  lemma StudyEventsOk(rev: Revision, plans: seq<seq<Assignment>>, base: nat, d: Draws)
    requires |plans| == NumClasses * StudentsPerClass
    requires forall s | 0 <= s < |plans| :: Conditioned(plans[s])
    ensures StudyEvents(plans, NumClasses, base, d, EventOf(rev)).Ok?
    ensures |StudyEvents(plans, NumClasses, base, d, EventOf(rev)).value| == TotalQuestions(plans, |plans|)
  {
    StudyCallsByStudent(plans, NumClasses, base, d);
    StudentsCallsAnswerable(plans, NumClasses * StudentsPerClass, base, d);
    SimulatedEventsAreCallEvents(plans, base, d, EventOf(rev));
    CallEventsError(rev, StudyCalls(plans, NumClasses, base, d));
    StudyEventCount(plans, base, d, EventOf(rev));
  }

  /** The calendars `generateStudentAssignment` draws for the students, from objectives
      that all carry a condition, can be simulated: the study records an event for
      every question. */
  lemma GeneratedCalendarsSimulate(
    rev: Revision, los: seq<seq<LearningObjective>>, isD1Wide: seq<bool>, draws: seq<Calendar.CalendarDraws>,
    plans: seq<seq<Assignment>>, base: nat, d: Draws)
    requires |plans| == NumClasses * StudentsPerClass && |los| == |plans| && |isD1Wide| == |plans| && |draws| == |plans|
    requires forall s | 0 <= s < |plans| ::
               && Calendar.DrawsFit(los[s], isD1Wide[s], rev, draws[s]) && Calendar.PostposttestPresent(los[s])
               && CalendarFacts.ObjectivesConditioned(los[s])
               && plans[s] == Calendar.GenerateStudentAssignment(los[s], isD1Wide[s], rev, draws[s])
    ensures StudyEvents(plans, NumClasses, base, d, EventOf(rev)).Ok?
  {
    forall s | 0 <= s < |plans| ensures Conditioned(plans[s]) {
      CalendarFacts.CalendarConditioned(los[s], isD1Wide[s], rev, draws[s]);
    }
    StudyEventsOk(rev, plans, base, d);
  }
}
