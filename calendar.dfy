/** `generateStudentAssignment` (nsfStudy2/generateStudentAssignment.ts): the calendar of
    one student. A pretest, six "D1" and six "D2" learning days and two final tests, each
    an assignment whose questions carry their objective's condition. The objectives of
    one spacing go to the D1 days, two questions from every one of them each week; the
    other spacing goes to the D2 days, one high- and one low-variability objective per
    day with all twelve of its block questions.

    The coin `isD1Wide` and the swap indices of every `shuffleArray` are parameters. */
module Calendar {
  import opened Wrappers
  import opened Text
  import opened Seqs
  import opened Shuffle
  import opened StudyTypes
  import opened QuestionBank
  import opened Loader

  /** `lo.condition?.spacing`: 0 for "wide", 1 for "narrow", -1 without a condition. */
  function SpacingKey(lo: LearningObjective): int
  {
    match lo.condition
    case None => -1
    case Some(c) => if c.spacing == Wide then 0 else 1
  }

  /** `lo.condition?.variability`: 0 for "high", 1 for "low", -1 without a condition. */
  function VariabilityKey(lo: LearningObjective): int
  {
    match lo.condition
    case None => -1
    case Some(c) => if c.variability == High then 0 else 1
  }

  /** The spacing key of the D1 side. */
  function D1Spacing(isD1Wide: bool): int
  {
    if isD1Wide then 0 else 1
  }

  /** `d1SpacingLOs`: the objectives of the D1 spacing, in input order. */
  function D1Side(los: seq<LearningObjective>, isD1Wide: bool): seq<LearningObjective>
  {
    Select(los, SpacingKey, D1Spacing(isD1Wide))
  }

  /** `d2SpacingLOs`: the objectives of the other spacing. */
  function D2Side(los: seq<LearningObjective>, isD1Wide: bool): seq<LearningObjective>
  {
    Select(los, SpacingKey, 1 - D1Spacing(isD1Wide))
  }

  function Highs(side: seq<LearningObjective>): seq<LearningObjective>
  {
    Select(side, VariabilityKey, 0)
  }

  function Lows(side: seq<LearningObjective>): seq<LearningObjective>
  {
    Select(side, VariabilityKey, 1)
  }

  /** `.map((q) => ({...q, condition: lo.condition}))`: each question with its
      objective's condition and nothing else changed. */
  function Tag(lo: LearningObjective, qs: seq<Question>): (r: seq<Question>)
    ensures |r| == |qs|
    ensures forall i | 0 <= i < |qs| :: r[i] == qs[i].(condition := lo.condition)
  {
    seq(|qs|, i requires 0 <= i < |qs| => qs[i].(condition := lo.condition))
  }

  /** The pretest pair of an objective; none without a sequence (the `?.` chain gives
      `undefined`, which the filter drops). */
  function PretestPair(lo: LearningObjective): seq<Question>
  {
    match lo.sequence
    case None => []
    case Some(s) => Tag(lo, [s.pretest.questionSet1, s.pretest.randomQuestionSet])
  }

  function PosttestPair(lo: LearningObjective): seq<Question>
  {
    match lo.sequence
    case None => []
    case Some(s) => Tag(lo, [s.posttest.questionSet6, s.posttest.matchingPretest])
  }

  /** The post-posttest pair. An objective whose sequence lacks it makes the source throw
      (`?.` guards only `sequence`); callers exclude that case with `PostposttestPresent`. */
  function PostposttestPair(lo: LearningObjective): seq<Question>
  {
    match lo.sequence
    case None => []
    case Some(s) =>
      match s.postposttest
      case None => []
      case Some(p) => Tag(lo, [p.questionSet7, p.matchingPretest])
  }

  predicate PostposttestPresent(los: seq<LearningObjective>)
  {
    forall i | 0 <= i < |los| :: los[i].sequence.Some? ==> los[i].sequence.value.postposttest.Some?
  }

  /** `questions.slice(from, to)` for `from <= to`: both ends clamped to the length. */
  function Slice(qs: seq<Question>, from: nat, to: nat): (r: seq<Question>)
    requires from <= to
    ensures from <= to <= |qs| ==> r == qs[from..to]
    ensures |r| <= to - from
  {
    var a := if from < |qs| then from else |qs|;
    var b := if to < |qs| then to else |qs|;
    qs[a..b]
  }

  /** What one objective contributes to day `W{week}D1`: two questions of block
      `(week - 1) div 2`, from position `((week - 1) mod 2) * 2`, or nothing when that
      block does not exist. */
  function WeekSlice(lo: LearningObjective, week: nat): seq<Question>
  {
    var blockIndex := (week - 1) / 2;
    var start := ((week - 1) % 2) * 2;
    match lo.sequence
    case None => []
    case Some(s) =>
      if 0 <= blockIndex < |s.blocks| then
        Tag(lo, Slice(s.blocks[blockIndex].questions, start, start + 2))
      else []
  }

  function WeekSliceOf(week: nat): LearningObjective -> seq<Question>
  {
    (lo: LearningObjective) => WeekSlice(lo, week)
  }

  /** The questions of day `W{week}D1` before the shuffle: the slices of the
      high-variability objectives of the D1 side, then those of the low ones. */
  function D1Questions(d1: seq<LearningObjective>, week: nat): seq<Question>
  {
    FlatMap(Highs(d1), WeekSliceOf(week)) + FlatMap(Lows(d1), WeekSliceOf(week))
  }

  function BlockQuestionsOf(lo: LearningObjective): QuestionBlock -> seq<Question>
  {
    (b: QuestionBlock) => Tag(lo, b.questions)
  }

  /** `lo?.sequence?.learning.blocks.flatMap(...) ?? []`: all block questions of an
      objective that may be missing. */
  function AllBlockQuestions(lo: Option<LearningObjective>): seq<Question>
  {
    match lo
    case None => []
    case Some(o) =>
      match o.sequence
      case None => []
      case Some(s) => FlatMap(s.blocks, BlockQuestionsOf(o))
  }

  /** `list[index]`, `undefined` out of range. */
  function At(list: seq<LearningObjective>, index: int): (r: Option<LearningObjective>)
    ensures r.Some? <==> 0 <= index < |list|
    ensures r.Some? ==> r.value == list[index]
  {
    if 0 <= index < |list| then Some(list[index]) else None
  }

  /** A D2 day's questions before the shuffle: all block questions of the high- and of
      the low-variability objective at position `index` of the D2 side. */
  function D2Questions(d2: seq<LearningObjective>, index: int): seq<Question>
  {
    AllBlockQuestions(At(Highs(d2), index)) + AllBlockQuestions(At(Lows(d2), index))
  }

  /** The objective position day `W{week}D2` reads, as written:
      `Math.floor((week - 1) / 2)` (see `D2Index`). */
  function D2IndexAsWritten(week: nat): int
  {
    (week - 1) / 2
  }

  /** The position that gives each of the six D2 days its own pair of objectives, as the
      comments and the per-objective counts of the tests require. */
  function D2Index(week: nat): int
  {
    week - 1
  }

  /** The position day `W{week}D2` reads under a revision: the source's under `AsWritten`,
      the intended one under `Corrected`. */
  function D2Position(rev: Revision, week: nat): int
  {
    if rev.AsWritten? then D2IndexAsWritten(week) else D2Index(week)
  }

  function DayName(week: nat, d: nat): string
  {
    "W" + NatToString(week) + "D" + NatToString(d)
  }

  /** The random draws of the calendar: one shuffle per assignment. */
  datatype CalendarDraws = CalendarDraws(
    pretest: seq<nat>,
    d1Days: seq<seq<nat>>,
    d2Days: seq<seq<nat>>,
    posttest: seq<nat>,
    postposttest: seq<nat>)

  predicate DrawsFit(los: seq<LearningObjective>, isD1Wide: bool, rev: Revision, d: CalendarDraws)
  {
    && SwapsFit(d.pretest, |FlatMap(los, PretestPair)|)
    && SwapsFit(d.posttest, |FlatMap(los, PosttestPair)|)
    && SwapsFit(d.postposttest, |FlatMap(los, PostposttestPair)|)
    && |d.d1Days| == 6 && |d.d2Days| == 6
    && (forall i | 0 <= i < 6 :: SwapsFit(d.d1Days[i], |D1Questions(D1Side(los, isD1Wide), i + 1)|))
    && (forall i | 0 <= i < 6 :: SwapsFit(d.d2Days[i], |D2Questions(D2Side(los, isD1Wide), D2Position(rev, i + 1))|))
  }

  function D1Day(los: seq<LearningObjective>, isD1Wide: bool, rev: Revision, d: CalendarDraws, week: nat): Assignment
    requires DrawsFit(los, isD1Wide, rev, d) && 1 <= week <= 6
  {
    var qs := D1Questions(D1Side(los, isD1Wide), week);
    Assignment(Shuffled(qs, d.d1Days[week - 1]), LearningType, DayName(week, 1))
  }

  function D2Day(los: seq<LearningObjective>, isD1Wide: bool, rev: Revision, d: CalendarDraws, week: nat): Assignment
    requires DrawsFit(los, isD1Wide, rev, d) && 1 <= week <= 6
  {
    var qs := D2Questions(D2Side(los, isD1Wide), D2Position(rev, week));
    Assignment(Shuffled(qs, d.d2Days[week - 1]), LearningType, DayName(week, 2))
  }

  /** `learningAssignments` before the sort: W1D1 .. W6D1, then W1D2 .. W6D2. */
  function LearningDays(los: seq<LearningObjective>, isD1Wide: bool, rev: Revision, d: CalendarDraws): (r: seq<Assignment>)
    requires DrawsFit(los, isD1Wide, rev, d)
    ensures |r| == 12
  {
    seq(12, i requires 0 <= i < 12 =>
      if i < 6 then D1Day(los, isD1Wide, rev, d, i + 1) else D2Day(los, isD1Wide, rev, d, i - 5))
  }

  lemma LearningDayAt(los: seq<LearningObjective>, isD1Wide: bool, rev: Revision, d: CalendarDraws, i: nat)
    requires DrawsFit(los, isD1Wide, rev, d) && i < 12
    ensures LearningDays(los, isD1Wide, rev, d)[i]
         == if i < 6 then D1Day(los, isD1Wide, rev, d, i + 1) else D2Day(los, isD1Wide, rev, d, i - 5)
  {
  }

  /** One `forEach` over the objectives of one variability on a D1 day: push the
      two-question slice of every objective whose block exists. */
  method CollectSlices(los: seq<LearningObjective>, week: nat) returns (qs: seq<Question>)
    ensures qs == FlatMap(los, WeekSliceOf(week))
  {
    qs := [];
    for i := 0 to |los|
      invariant qs == FlatMap(los[..i], WeekSliceOf(week))
    {
      var lo := los[i];
      var blockIndex := (week - 1) / 2;
      var questionStartIdx := ((week - 1) % 2) * 2;
      if lo.sequence.Some? && 0 <= blockIndex < |lo.sequence.value.blocks| {
        var block := lo.sequence.value.blocks[blockIndex];
        qs := qs + Tag(lo, Slice(block.questions, questionStartIdx, questionStartIdx + 2));
      }
      FlatMapSnoc(los, i, WeekSliceOf(week));
    }
    assert los[..|los|] == los;
  }

  /** The two `for (let week = 1; week <= 6; week++)` loops that push the D1 and then
      the D2 assignments. */
  method GenerateLearningDays(los: seq<LearningObjective>, isD1Wide: bool, rev: Revision, d: CalendarDraws)
    returns (learning: seq<Assignment>)
    requires DrawsFit(los, isD1Wide, rev, d)
    ensures learning == LearningDays(los, isD1Wide, rev, d)
  {
    learning := PushD1Days(los, isD1Wide, rev, d);
    learning := PushD2Days(los, isD1Wide, rev, d, learning);
  }

  /** The first loop: `W1D1` .. `W6D1`, the first six learning days. */
  method PushD1Days(los: seq<LearningObjective>, isD1Wide: bool, rev: Revision, d: CalendarDraws)
    returns (learning: seq<Assignment>)
    requires DrawsFit(los, isD1Wide, rev, d)
    ensures learning == LearningDays(los, isD1Wide, rev, d)[..6]
  {
    var d1SpacingLOs := D1Side(los, isD1Wide);
    ghost var all := LearningDays(los, isD1Wide, rev, d);
    learning := [];
    for week := 1 to 7
      invariant |learning| == week - 1 && learning == all[..week - 1]
    {
      var high := CollectSlices(Highs(d1SpacingLOs), week);
      var low := CollectSlices(Lows(d1SpacingLOs), week);
      var questionsForDay := high + low;
      var day := Assignment(Shuffled(questionsForDay, d.d1Days[week - 1]), LearningType, DayName(week, 1));
      LearningDayAt(los, isD1Wide, rev, d, week - 1);
      PrefixNext(learning, all, day);
      learning := learning + [day];
    }
  }

  /** The second loop: `W1D2` .. `W6D2` after the first six days. */
  method PushD2Days(los: seq<LearningObjective>, isD1Wide: bool, rev: Revision, d: CalendarDraws, d1Days: seq<Assignment>)
    returns (learning: seq<Assignment>)
    requires DrawsFit(los, isD1Wide, rev, d) && d1Days == LearningDays(los, isD1Wide, rev, d)[..6]
    ensures learning == LearningDays(los, isD1Wide, rev, d)
  {
    var d2SpacingLOs := D2Side(los, isD1Wide);
    ghost var all := LearningDays(los, isD1Wide, rev, d);
    learning := d1Days;
    for week := 1 to 7
      invariant |learning| == week + 5 && learning == all[..week + 5]
    {
      var highVariabilityLO := At(Highs(d2SpacingLOs), D2Position(rev, week));
      var lowVariabilityLO := At(Lows(d2SpacingLOs), D2Position(rev, week));
      var questionsForDay := AllBlockQuestions(highVariabilityLO) + AllBlockQuestions(lowVariabilityLO);
      var day := Assignment(Shuffled(questionsForDay, d.d2Days[week - 1]), LearningType, DayName(week, 2));
      LearningDayAt(los, isD1Wide, rev, d, week + 5);
      PrefixNext(learning, all, day);
      learning := learning + [day];
    }
    assert learning == all;
  }

  /** `parseInt(day.match(/W(\d+)/)?.[1] ?? "0")`: the digits after the first "W" that
      is followed by a digit, or 0. */
  function WeekOf(day: string): nat
  {
    if |day| >= 2 && day[0] == 'W' && IsDigit(day[1]) then DigitsValue(LeadingDigits(day[1..]))
    else if day == [] then 0
    else WeekOf(day[1..])
  }

  /** The sort comparator: by week, and within a week the day containing "D1" first. */
  function Compare(a: Assignment, b: Assignment): int
  {
    var weekA := WeekOf(a.day);
    var weekB := WeekOf(b.day);
    if weekA == weekB then (if Contains(a.day, "D1") then -1 else 1) else weekA - weekB
  }

  /** The key the sort is modelled by: `2 * week`, plus 1 unless the day contains "D1". */
  function DayKey(a: Assignment): int
  {
    2 * WeekOf(a.day) + (if Contains(a.day, "D1") then 0 else 1)
  }

  /** `generateStudentAssignment`: the pretest, the twelve learning days in comparator
      order, the posttest and the post-posttest; each test a rearrangement of its pairs. */
  function GenerateStudentAssignment(los: seq<LearningObjective>, isD1Wide: bool, rev: Revision, d: CalendarDraws)
    : (r: seq<Assignment>)
    requires DrawsFit(los, isD1Wide, rev, d) && PostposttestPresent(los)
    ensures |r| == 15
    ensures r[0].atype == PretestType && multiset(r[0].questions) == multiset(FlatMap(los, PretestPair))
    ensures multiset(r[1..13]) == multiset(LearningDays(los, isD1Wide, rev, d))
    ensures r[13].atype == PosttestType && multiset(r[13].questions) == multiset(FlatMap(los, PosttestPair))
    ensures r[14].atype == PostposttestType && multiset(r[14].questions) == multiset(FlatMap(los, PostposttestPair))
  {
    var pretest := Assignment(Shuffled(FlatMap(los, PretestPair), d.pretest), PretestType, "pretest");
    var posttest := Assignment(Shuffled(FlatMap(los, PosttestPair), d.posttest), PosttestType, "posttest");
    var postposttest :=
      Assignment(Shuffled(FlatMap(los, PostposttestPair), d.postposttest), PostposttestType, "postposttest");
    [pretest] + SortBy(LearningDays(los, isD1Wide, rev, d), DayKey) + [posttest, postposttest]
  }
}
