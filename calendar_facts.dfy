/** What `generateStudentAssignment` (nsfStudy2/generateStudentAssignment.ts) promises
    about one student's calendar: the order of the assignments after the comparator sort,
    the size of every assignment, and how often each learning objective is seen. */
module CalendarFacts {
  import opened Wrappers
  import opened Text
  import opened Seqs
  import opened Shuffle
  import opened StudyTypes
  import opened QuestionBank
  import opened Loader
  import Sequence
  import opened Calendar

  // ---------------------------------------------------------------------------
  // Day names and the comparator

  /** Characters that differ from the first character of `t` cannot start a match. */
  lemma {:induction false} ContainsAfter(p: string, rest: string, t: string)
    requires |t| >= 1 && forall i | 0 <= i < |p| :: p[i] != t[0]
    ensures Contains(p + rest, t) == Contains(rest, t)
  {
    if p == [] {
      assert p + rest == rest;
    } else {
      assert (p + rest)[0] == p[0];
      assert !(t <= p + rest);
      assert (p + rest)[1..] == p[1..] + rest;
      ContainsAfter(p[1..], rest, t);
    }
  }

  /** The week read back from the name `W{week}D{d}` is `week`. */
  lemma DayNameWeek(week: nat, d: nat)
    ensures WeekOf(DayName(week, d)) == week
  {
    var day := DayName(week, d);
    var w := NatToString(week);
    var rest := "D" + NatToString(d);
    assert day == "W" + (w + rest);
    assert day[1..] == w + rest;
    assert day[1] == w[0];
    LeadingDigitsOfConcat(w, rest);
    DigitsValueOfNatToString(week);
  }

  /** `W{week}D{d}` contains "D1" exactly for the first day of the week. */
  lemma DayNameD1(week: nat, d: nat)
    requires d == 1 || d == 2
    ensures Contains(DayName(week, d), "D1") <==> d == 1
  {
    var p := "W" + NatToString(week);
    var rest := "D" + NatToString(d);
    assert DayName(week, d) == p + rest;
    assert forall i | 0 <= i < |p| :: p[i] != 'D' by {
      NatToStringFree(week, 'D');
      assert forall i | 1 <= i < |p| :: p[i] == NatToString(week)[i - 1];
    }
    ContainsAfter(p, rest, "D1");
    if d == 1 {
      assert rest == "D1";
    } else {
      assert rest == "D2";
      assert !Contains("2", "D1") by {
        assert !("D1" <= "2") && "2"[1..] == [];
        assert !Contains([], "D1");
      }
      assert !Contains(rest, "D1") by {
        assert rest[1] == '2' && "D1"[1] == '1';
        assert !("D1" <= rest);
        assert rest[1..] == "2";
      }
    }
  }

  /** The sort key of a day named `W{week}D{d}`. */
  lemma DayKeyOfName(a: Assignment, week: nat, d: nat)
    requires a.day == DayName(week, d) && (d == 1 || d == 2)
    ensures DayKey(a) == 2 * week + d - 1
  {
    DayNameWeek(week, d);
    DayNameD1(week, d);
  }

  /** On two different calendar days the comparator orders as the key does: by week,
      and the D1 day before the D2 day of the same week. */
  lemma CompareAgreesWithDayKey(a: Assignment, b: Assignment, wa: nat, da: nat, wb: nat, db: nat)
    requires a.day == DayName(wa, da) && (da == 1 || da == 2)
    requires b.day == DayName(wb, db) && (db == 1 || db == 2)
    requires wa != wb || da != db
    ensures Compare(a, b) < 0 <==> DayKey(a) < DayKey(b)
    ensures Compare(a, b) > 0 <==> DayKey(a) > DayKey(b)
  {
    DayNameWeek(wa, da);
    DayNameWeek(wb, db);
    DayNameD1(wa, da);
    DayNameD1(wb, db);
  }

  // ---------------------------------------------------------------------------
  // The order of the calendar

  /** The keys of the unsorted learning days: `W{w}D1` at position `w - 1` has key
      `2w`, `W{w}D2` at position `w + 5` has key `2w + 1`. */
  lemma LearningDayKeys(los: seq<LearningObjective>, isD1Wide: bool, rev: Revision, d: CalendarDraws)
    requires DrawsFit(los, isD1Wide, rev, d)
    ensures var days := LearningDays(los, isD1Wide, rev, d);
      forall i | 0 <= i < 12 :: DayKey(days[i]) == if i < 6 then 2 * i + 2 else 2 * (i - 6) + 3
  {
    var days := LearningDays(los, isD1Wide, rev, d);
    forall i | 0 <= i < 12
      ensures DayKey(days[i]) == if i < 6 then 2 * i + 2 else 2 * (i - 6) + 3
    {
      LearningDayAt(los, isD1Wide, rev, d, i);
      if i < 6 {
        assert days[i].day == DayName(i + 1, 1);
        DayKeyOfName(days[i], i + 1, 1);
      } else {
        assert days[i].day == DayName(i - 5, 2);
        DayKeyOfName(days[i], i - 5, 2);
      }
    }
  }

  /** The keys `2, 4, ..., 12, 3, 5, ..., 13` are distinct and lie in `2..13`. */
  lemma InterleaveKeys(days: seq<Assignment>)
    requires |days| == 12
    requires forall i | 0 <= i < 12 :: DayKey(days[i]) == if i < 6 then 2 * i + 2 else 2 * (i - 6) + 3
    ensures KeysDistinct(days, DayKey)
    ensures forall i | 0 <= i < 12 :: 2 <= DayKey(days[i]) <= 13
  {
  }

  /** A strictly ascending rearrangement of the days holds at position `i` the day with
      key `i + 2`. */
  lemma SortedAt(days: seq<Assignment>, sorted: seq<Assignment>, i: nat, j: nat)
    requires |days| == 12 && |sorted| == 12 && i < 12 && j < 12
    requires multiset(sorted) == multiset(days) && StrictlyAscending(sorted, DayKey)
    requires KeysDistinct(days, DayKey)
    requires forall k | 0 <= k < 12 :: 2 <= DayKey(days[k]) <= 13
    requires DayKey(days[j]) == i + 2
    ensures sorted[i] == days[j]
  {
    assert sorted[0] in multiset(days) && sorted[11] in multiset(days) && sorted[i] in multiset(days);
    AscendingGaps(sorted, DayKey, 0, i);
    AscendingGaps(sorted, DayKey, i, 11);
    SameKeySame(days, DayKey, sorted[i], days[j]);
  }

  /** The interleaving, for any strictly ascending rearrangement of the days. */
  lemma InterleaveAt(days: seq<Assignment>, sorted: seq<Assignment>)
    requires |days| == 12 && |sorted| == 12
    requires multiset(sorted) == multiset(days) && StrictlyAscending(sorted, DayKey)
    requires forall i | 0 <= i < 12 :: DayKey(days[i]) == if i < 6 then 2 * i + 2 else 2 * (i - 6) + 3
    ensures forall w | 1 <= w <= 6 :: sorted[2 * w - 2] == days[w - 1] && sorted[2 * w - 1] == days[w + 5]
  {
    InterleaveKeys(days);
    forall w | 1 <= w <= 6
      ensures sorted[2 * w - 2] == days[w - 1] && sorted[2 * w - 1] == days[w + 5]
    {
      var i := w - 1;
      assert DayKey(days[i]) == 2 * i + 2 && DayKey(days[i + 6]) == 2 * i + 3;
      SortedAt(days, sorted, 2 * i, i);
      SortedAt(days, sorted, 2 * i + 1, i + 6);
    }
  }

  /** Twelve assignments keyed `2, 4, ..., 12` and then `3, 5, ..., 13` sort into the
      interleaving of the two runs. */
  lemma InterleaveSorted(days: seq<Assignment>)
    requires |days| == 12
    requires forall i | 0 <= i < 12 :: DayKey(days[i]) == if i < 6 then 2 * i + 2 else 2 * (i - 6) + 3
    ensures var sorted := SortBy(days, DayKey);
      && |sorted| == 12
      && forall w | 1 <= w <= 6 :: sorted[2 * w - 2] == days[w - 1] && sorted[2 * w - 1] == days[w + 5]
  {
    InterleaveKeys(days);
    SortByStrict(days, DayKey);
    InterleaveAt(days, SortBy(days, DayKey));
  }

  /** The interleaved days framed by a test before and two tests after. */
  lemma FramedAt(pre: Assignment, sorted: seq<Assignment>, days: seq<Assignment>, post: Assignment, pp: Assignment)
    requires |sorted| == 12 && |days| == 12
    requires forall w | 1 <= w <= 6 :: sorted[2 * w - 2] == days[w - 1] && sorted[2 * w - 1] == days[w + 5]
    ensures var r := [pre] + sorted + [post, pp];
      && |r| == 15 && r[0] == pre && r[13] == post && r[14] == pp
      && forall w | 1 <= w <= 6 :: r[2 * w - 1] == days[w - 1] && r[2 * w] == days[w + 5]
  {
    var r := [pre] + sorted + [post, pp];
    assert forall k | 0 <= k < 12 :: r[k + 1] == sorted[k];
    forall w | 1 <= w <= 6 ensures r[2 * w - 1] == days[w - 1] && r[2 * w] == days[w + 5] {
      var k := 2 * w - 2;
      assert r[k + 1] == sorted[k] && r[k + 2] == sorted[k + 1];
    }
  }

  /** A pretest, twelve learning days keyed as the calendar's are, and two final tests
      make fifteen assignments in the order `pretest, W1D1, W1D2, ..., W6D2, posttest,
      post-posttest`. */
  lemma CalendarShape(pre: Assignment, days: seq<Assignment>, post: Assignment, pp: Assignment)
    requires |days| == 12
    requires forall i | 0 <= i < 12 :: DayKey(days[i]) == if i < 6 then 2 * i + 2 else 2 * (i - 6) + 3
    ensures var r := [pre] + SortBy(days, DayKey) + [post, pp];
      && |r| == 15 && r[0] == pre && r[13] == post && r[14] == pp
      && forall w | 1 <= w <= 6 :: r[2 * w - 1] == days[w - 1] && r[2 * w] == days[w + 5]
  {
    InterleaveSorted(days);
    FramedAt(pre, SortBy(days, DayKey), days, post, pp);
  }

  /** The calendar has fifteen assignments: the pretest, then `W1D1, W1D2, ..., W6D2`,
      then the posttest and the post-posttest; each test holds a rearrangement of its
      pairs. */
  lemma ScheduleOrder(los: seq<LearningObjective>, isD1Wide: bool, rev: Revision, d: CalendarDraws)
    requires DrawsFit(los, isD1Wide, rev, d) && PostposttestPresent(los)
    ensures var r := GenerateStudentAssignment(los, isD1Wide, rev, d);
      var days := LearningDays(los, isD1Wide, rev, d);
      && |r| == 15
      && r[0].atype == PretestType && r[0].day == "pretest"
      && multiset(r[0].questions) == multiset(FlatMap(los, PretestPair))
      && (forall w | 1 <= w <= 6 :: r[2 * w - 1] == days[w - 1] && r[2 * w] == days[w + 5])
      && r[13].atype == PosttestType && r[13].day == "posttest"
      && multiset(r[13].questions) == multiset(FlatMap(los, PosttestPair))
      && r[14].atype == PostposttestType && r[14].day == "postposttest"
      && multiset(r[14].questions) == multiset(FlatMap(los, PostposttestPair))
  {
    var pretest := Assignment(Shuffled(FlatMap(los, PretestPair), d.pretest), PretestType, "pretest");
    var posttest := Assignment(Shuffled(FlatMap(los, PosttestPair), d.posttest), PosttestType, "posttest");
    var postposttest :=
      Assignment(Shuffled(FlatMap(los, PostposttestPair), d.postposttest), PostposttestType, "postposttest");
    LearningDayKeys(los, isD1Wide, rev, d);
    CalendarShape(pretest, LearningDays(los, isD1Wide, rev, d), posttest, postposttest);
  }

  /** Learning day `w - 1` is `W{w}D1` and day `w + 5` is `W{w}D2`; both are learning
      assignments, each a rearrangement of the questions its objectives contribute. */
  lemma LearningDayContents(los: seq<LearningObjective>, isD1Wide: bool, rev: Revision, d: CalendarDraws, w: nat)
    requires DrawsFit(los, isD1Wide, rev, d) && 1 <= w <= 6
    ensures var a := LearningDays(los, isD1Wide, rev, d)[w - 1];
      a.day == DayName(w, 1) && a.atype == LearningType
      && multiset(a.questions) == multiset(D1Questions(D1Side(los, isD1Wide), w))
    ensures var a := LearningDays(los, isD1Wide, rev, d)[w + 5];
      a.day == DayName(w, 2) && a.atype == LearningType
      && multiset(a.questions) == multiset(D2Questions(D2Side(los, isD1Wide), D2Position(rev, w)))
  {
    var days := LearningDays(los, isD1Wide, rev, d);
    LearningDayAt(los, isD1Wide, rev, d, w - 1);
    LearningDayAt(los, isD1Wide, rev, d, w + 5);
  }

  // ---------------------------------------------------------------------------
  // How often each objective is seen

  /** `q => q.lo === name`. */
  function HasLabel(name: string): Question -> bool
  {
    (q: Question) => q.lo == name
  }

  /** Every question of `qs` is labelled with objective `n`. */
  ghost predicate Owns(qs: seq<Question>, n: nat)
  {
    forall i | 0 <= i < |qs| :: qs[i].lo == LoLabel(n)
  }

  /** An objective shaped as the calendar expects: a sequence with a post-posttest and
      three blocks of four questions, every question labelled with the objective. */
  ghost predicate Designed(lo: LearningObjective)
  {
    lo.sequence.Some? &&
    var s := lo.sequence.value;
    s.postposttest.Some? && |s.blocks| == 3 &&
    (forall b | 0 <= b < 3 :: |s.blocks[b].questions| == 4 && Owns(s.blocks[b].questions, lo.loNumber)) &&
    Owns([s.pretest.questionSet1, s.pretest.randomQuestionSet, s.posttest.questionSet6,
          s.posttest.matchingPretest, s.postposttest.value.questionSet7,
          s.postposttest.value.matchingPretest], lo.loNumber)
  }

  /** All objectives designed, with pairwise different numbers. */
  ghost predicate AllDesigned(los: seq<LearningObjective>)
  {
    (forall i | 0 <= i < |los| :: Designed(los[i])) && KeysDistinct(los, LoNumberKey)
  }

  /** Six objectives of each of the four conditions, and none without one. */
  ghost predicate Balanced(los: seq<LearningObjective>)
  {
    && (forall i | 0 <= i < |los| :: los[i].condition.Some?)
    && (forall c: Condition :: CountWhere(los, Sequence.HasCondition(c)) == 6)
  }

  lemma CountOwned(qs: seq<Question>, n: nat, m: nat)
    requires Owns(qs, n)
    ensures CountWhere(qs, HasLabel(LoLabel(m))) == if n == m then |qs| else 0
  {
    if n == m {
      CountAll(qs, HasLabel(LoLabel(m)));
    } else {
      forall i | 0 <= i < |qs| ensures qs[i].lo != LoLabel(m) {
        if qs[i].lo == LoLabel(m) {
          LoLabelInjective(n, m);
        }
      }
      CountNone(qs, HasLabel(LoLabel(m)));
    }
  }

  /** Two objectives of one calendar are the same or have different numbers. */
  lemma Related(los: seq<LearningObjective>, x: LearningObjective, y: LearningObjective)
    requires AllDesigned(los) && x in los && y in los
    ensures Designed(y) && (y == x || y.loNumber != x.loNumber)
  {
    if y.loNumber == x.loNumber {
      SameKeySame(los, LoNumberKey, x, y);
    }
  }

  /** Each test pair of `y` holds two questions of `x` when `y` is `x`, none otherwise. */
  lemma PairCounts(y: LearningObjective, x: LearningObjective)
    requires Designed(y) && (y == x || y.loNumber != x.loNumber)
    ensures var p := HasLabel(LoLabel(x.loNumber));
      && CountWhere(PretestPair(y), p) == (if y == x then 2 else 0)
      && CountWhere(PosttestPair(y), p) == (if y == x then 2 else 0)
      && CountWhere(PostposttestPair(y), p) == (if y == x then 2 else 0)
  {
    var s := y.sequence.value;
    var pp := s.postposttest.value;
    var six := [s.pretest.questionSet1, s.pretest.randomQuestionSet, s.posttest.questionSet6,
                s.posttest.matchingPretest, pp.questionSet7, pp.matchingPretest];
    assert Owns(six, y.loNumber);
    assert six[0].lo == six[1].lo == six[2].lo == six[3].lo == six[4].lo == six[5].lo == LoLabel(y.loNumber);
    CountOwned(PretestPair(y), y.loNumber, x.loNumber);
    CountOwned(PosttestPair(y), y.loNumber, x.loNumber);
    CountOwned(PostposttestPair(y), y.loNumber, x.loNumber);
  }

  /** The weekly slice of `y` has two questions, of `x` exactly when `y` is `x`. */
  lemma SliceCount(y: LearningObjective, x: LearningObjective, week: nat)
    requires Designed(y) && (y == x || y.loNumber != x.loNumber) && 1 <= week <= 6
    ensures |WeekSlice(y, week)| == 2
    ensures CountWhere(WeekSlice(y, week), HasLabel(LoLabel(x.loNumber))) == if y == x then 2 else 0
  {
    var s := y.sequence.value;
    var b := (week - 1) / 2;
    var start := ((week - 1) % 2) * 2;
    assert 0 <= b < 3 && (start == 0 || start == 2);
    var qs := s.blocks[b].questions;
    assert WeekSlice(y, week) == Tag(y, qs[start..start + 2]);
    CountOwned(WeekSlice(y, week), y.loNumber, x.loNumber);
  }

  /** The twelve block questions of `y`, of `x` exactly when `y` is `x`. */
  lemma BlockCount(y: LearningObjective, x: LearningObjective)
    requires Designed(y) && (y == x || y.loNumber != x.loNumber)
    ensures |AllBlockQuestions(Some(y))| == 12
    ensures CountWhere(AllBlockQuestions(Some(y)), HasLabel(LoLabel(x.loNumber))) == if y == x then 12 else 0
  {
    var blocks := y.sequence.value.blocks;
    var f := BlockQuestionsOf(y);
    var p := HasLabel(LoLabel(x.loNumber));
    var c := if y == x then 4 else 0;
    forall j | 0 <= j < |blocks| ensures |f(blocks[j])| == 4 && CountWhere(f(blocks[j]), p) == c {
      CountOwned(f(blocks[j]), y.loNumber, x.loNumber);
    }
    FlatMapLengthConst(blocks, f, 4);
    CountFlatMapConst(blocks, f, p, c);
  }
  /** The test pairs of designed objectives: two questions each. */
  lemma TestSizes(los: seq<LearningObjective>)
    requires forall i | 0 <= i < |los| :: Designed(los[i])
    ensures |FlatMap(los, PretestPair)| == 2 * |los|
    ensures |FlatMap(los, PosttestPair)| == 2 * |los|
    ensures |FlatMap(los, PostposttestPair)| == 2 * |los|
  {
    FlatMapLengthConst(los, PretestPair, 2);
    FlatMapLengthConst(los, PosttestPair, 2);
    FlatMapLengthConst(los, PostposttestPair, 2);
  }

  /** Each of the three tests holds exactly two questions of every objective. */
  lemma TestCounts(los: seq<LearningObjective>, x: LearningObjective)
    requires AllDesigned(los) && x in los
    ensures var p := HasLabel(LoLabel(x.loNumber));
      && CountWhere(FlatMap(los, PretestPair), p) == 2
      && CountWhere(FlatMap(los, PosttestPair), p) == 2
      && CountWhere(FlatMap(los, PostposttestPair), p) == 2
  {
    var p := HasLabel(LoLabel(x.loNumber));
    forall j | 0 <= j < |los|
      ensures && CountWhere(PretestPair(los[j]), p) == (if los[j] == x then 2 else 0)
              && CountWhere(PosttestPair(los[j]), p) == (if los[j] == x then 2 else 0)
              && CountWhere(PostposttestPair(los[j]), p) == (if los[j] == x then 2 else 0)
    {
      Related(los, x, los[j]);
      PairCounts(los[j], x);
    }
    MultiplicityOne(los, LoNumberKey, x);
    CountFlatMapIndexed(los, PretestPair, p, los, x, 2);
    CountFlatMapIndexed(los, PosttestPair, p, los, x, 2);
    CountFlatMapIndexed(los, PostposttestPair, p, los, x, 2);
  }

  /** The objectives of spacing key `s` and variability key `v`, in input order. */
  function Group(los: seq<LearningObjective>, s: int, v: int): seq<LearningObjective>
  {
    Select(Select(los, SpacingKey, s), VariabilityKey, v)
  }

  /** A group holds the objectives of its keys, each once. */
  lemma GroupMembers(los: seq<LearningObjective>, s: int, v: int)
    ensures forall y | y in Group(los, s, v) :: y in los && SpacingKey(y) == s && VariabilityKey(y) == v
  {
    SelectMembers(los, SpacingKey, s);
    SelectMembers(Select(los, SpacingKey, s), VariabilityKey, v);
  }

  lemma GroupMultiplicity(los: seq<LearningObjective>, s: int, v: int, x: LearningObjective)
    requires KeysDistinct(los, LoNumberKey) && x in los
    ensures multiset(Group(los, s, v))[x] == if SpacingKey(x) == s && VariabilityKey(x) == v then 1 else 0
  {
    MultiplicityOne(los, LoNumberKey, x);
    SelectMultiplicity(los, SpacingKey, s, x);
    SelectMultiplicity(Select(los, SpacingKey, s), VariabilityKey, v, x);
  }

  lemma GroupKeysDistinct(los: seq<LearningObjective>, s: int, v: int)
    requires KeysDistinct(los, LoNumberKey)
    ensures KeysDistinct(Group(los, s, v), LoNumberKey)
  {
    SelectKeysDistinct(los, SpacingKey, s, LoNumberKey);
    SelectKeysDistinct(Select(los, SpacingKey, s), VariabilityKey, v, LoNumberKey);
  }

  /** In a balanced calendar each of the four groups has six objectives. */
  lemma GroupLength(los: seq<LearningObjective>, s: int, v: int)
    requires Balanced(los) && (s == 0 || s == 1) && (v == 0 || v == 1)
    ensures |Group(los, s, v)| == 6
  {
    var c := Condition(if s == 0 then Wide else Narrow, if v == 0 then High else Low);
    var q := Sequence.HasCondition(c);
    forall j | 0 <= j < |los|
      ensures q(los[j]) <==> SpacingKey(los[j]) == s && KeyIs(VariabilityKey, v)(los[j])
    {
      var lo := los[j];
      assert lo.condition.Some?;
      assert q(lo) == (lo.condition == Some(c));
      assert KeyIs(VariabilityKey, v)(lo) == (VariabilityKey(lo) == v);
    }
    SelectLength(Select(los, SpacingKey, s), VariabilityKey, v);
    CountSelect(los, SpacingKey, s, KeyIs(VariabilityKey, v), q);
  }

  /** The weekly slices of objectives drawn from a calendar: two questions each, two
      of `x` for every occurrence of `x`. */
  lemma SliceCounts(los: seq<LearningObjective>, sub: seq<LearningObjective>, x: LearningObjective, week: nat)
    requires AllDesigned(los) && x in los && 1 <= week <= 6
    requires forall y | y in sub :: y in los
    ensures |FlatMap(sub, WeekSliceOf(week))| == 2 * |sub|
    ensures CountWhere(FlatMap(sub, WeekSliceOf(week)), HasLabel(LoLabel(x.loNumber))) == 2 * multiset(sub)[x]
  {
    var p := HasLabel(LoLabel(x.loNumber));
    forall j | 0 <= j < |sub|
      ensures |WeekSliceOf(week)(sub[j])| == 2
      ensures CountWhere(WeekSliceOf(week)(sub[j]), p) == if sub[j] == x then 2 else 0
    {
      assert sub[j] in sub;
      Related(los, x, sub[j]);
      SliceCount(sub[j], x, week);
    }
    FlatMapLengthConst(sub, WeekSliceOf(week), 2);
    CountFlatMapIndexed(sub, WeekSliceOf(week), p, sub, x, 2);
  }

  /** A D1 day holds two questions of every objective of the D1 spacing and none of the
      others. */
  lemma D1DayCount(los: seq<LearningObjective>, isD1Wide: bool, x: LearningObjective, week: nat)
    requires AllDesigned(los) && x in los && x.condition.Some? && 1 <= week <= 6
    ensures CountWhere(D1Questions(D1Side(los, isD1Wide), week), HasLabel(LoLabel(x.loNumber)))
              == if SpacingKey(x) == D1Spacing(isD1Wide) then 2 else 0
  {
    var s := D1Spacing(isD1Wide);
    var f := WeekSliceOf(week);
    var p := HasLabel(LoLabel(x.loNumber));
    GroupMembers(los, s, 0);
    GroupMembers(los, s, 1);
    SliceCounts(los, Group(los, s, 0), x, week);
    SliceCounts(los, Group(los, s, 1), x, week);
    GroupMultiplicity(los, s, 0, x);
    GroupMultiplicity(los, s, 1, x);
    CountConcat(FlatMap(Group(los, s, 0), f), FlatMap(Group(los, s, 1), f), p);
  }

  /** The block questions of the objective at `index` of a group: twelve of `x` when it
      is `x`, none otherwise. */
  lemma AtCount(los: seq<LearningObjective>, list: seq<LearningObjective>, x: LearningObjective, index: int)
    requires AllDesigned(los) && x in los
    requires forall y | y in list :: y in los
    ensures CountWhere(AllBlockQuestions(At(list, index)), HasLabel(LoLabel(x.loNumber)))
              == if 0 <= index < |list| && list[index] == x then 12 else 0
  {
    if 0 <= index < |list| {
      assert list[index] in list;
      Related(los, x, list[index]);
      BlockCount(list[index], x);
    }
  }

  /** A D2 day reading position `index` holds the twelve block questions of `x` when `x`
      is the objective at that position of its group on the D2 side, and none otherwise. */
  lemma D2DayCount(los: seq<LearningObjective>, isD1Wide: bool, x: LearningObjective, index: int)
    requires AllDesigned(los) && x in los && x.condition.Some?
    ensures var s := 1 - D1Spacing(isD1Wide);
      var list := Group(los, s, VariabilityKey(x));
      CountWhere(D2Questions(D2Side(los, isD1Wide), index), HasLabel(LoLabel(x.loNumber)))
        == if SpacingKey(x) == s && 0 <= index < |list| && list[index] == x then 12 else 0
  {
    var s := 1 - D1Spacing(isD1Wide);
    var d2 := D2Side(los, isD1Wide);
    var highs, lows := Group(los, s, 0), Group(los, s, 1);
    assert Highs(d2) == highs && Lows(d2) == lows;
    assert D2Questions(d2, index) == AllBlockQuestions(At(highs, index)) + AllBlockQuestions(At(lows, index));
    GroupMembers(los, s, 0);
    GroupMembers(los, s, 1);
    D2PairCount(los, x, highs, lows, s, index);
  }

  /** The block questions of the objectives at position `index` of a high and a low
      group of spacing `s` hold twelve questions of `x` when `x` sits at that position
      of its own group, and none otherwise. */
  lemma D2PairCount(los: seq<LearningObjective>, x: LearningObjective,
                  highs: seq<LearningObjective>, lows: seq<LearningObjective>, s: int, index: int)
    requires AllDesigned(los) && x in los && x.condition.Some?
    requires forall y | y in highs :: y in los && SpacingKey(y) == s && VariabilityKey(y) == 0
    requires forall y | y in lows :: y in los && SpacingKey(y) == s && VariabilityKey(y) == 1
    ensures var list := if VariabilityKey(x) == 0 then highs else lows;
      CountWhere(AllBlockQuestions(At(highs, index)) + AllBlockQuestions(At(lows, index)), HasLabel(LoLabel(x.loNumber)))
        == if SpacingKey(x) == s && 0 <= index < |list| && list[index] == x then 12 else 0
  {
    var p := HasLabel(LoLabel(x.loNumber));
    var hq, lq := AllBlockQuestions(At(highs, index)), AllBlockQuestions(At(lows, index));
    AtCount(los, highs, x, index);
    AtCount(los, lows, x, index);
    CountConcat(hq, lq, p);
    var hh := 0 <= index < |highs| && highs[index] == x;
    var hl := 0 <= index < |lows| && lows[index] == x;
    if hh {
      assert highs[index] in highs;
    }
    if hl {
      assert lows[index] in lows;
    }
  }

  /** The question list of day `W{w}D2` under a revision of its position. */
  function D2DayQuestions(d2: seq<LearningObjective>, rev: Revision): nat -> seq<Question>
  {
    (w: nat) => D2Questions(d2, D2Position(rev, w))
  }

  const Weeks: seq<nat> := [1, 2, 3, 4, 5, 6]

  /** The positions `D2IndexAsWritten` gives the weeks 1 to 6. */
  const PositionsAsWritten: seq<nat> := [0, 0, 1, 1, 2, 2]

  /** On one D2 day, the objective at position `j` of its group is met exactly when the
      day reads position `j`. */
  lemma D2DayHit(los: seq<LearningObjective>, isD1Wide: bool, x: LearningObjective, j: nat, index: int)
    requires AllDesigned(los) && x in los && x.condition.Some?
    requires var list := Group(los, 1 - D1Spacing(isD1Wide), VariabilityKey(x)); j < |list| && list[j] == x
    ensures CountWhere(D2Questions(D2Side(los, isD1Wide), index), HasLabel(LoLabel(x.loNumber)))
              == if index == j then 12 else 0
  {
    var s := 1 - D1Spacing(isD1Wide);
    var list := Group(los, s, VariabilityKey(x));
    GroupMembers(los, s, VariabilityKey(x));
    assert list[j] in list;
    D2DayCount(los, isD1Wide, x, index);
    if 0 <= index < |list| && list[index] == x {
      GroupKeysDistinct(los, s, VariabilityKey(x));
    }
  }

  /** With the corrected position, the six D2 days show the objective at position `j` of
      its group all twelve of its block questions once when `j < 6`. */
  lemma D2WeekCounts(los: seq<LearningObjective>, isD1Wide: bool, x: LearningObjective, j: nat)
    requires AllDesigned(los) && x in los && x.condition.Some?
    requires var list := Group(los, 1 - D1Spacing(isD1Wide), VariabilityKey(x)); j < |list| && list[j] == x
    ensures CountWhere(FlatMap(Weeks, D2DayQuestions(D2Side(los, isD1Wide), Corrected)), HasLabel(LoLabel(x.loNumber)))
              == if j < 6 then 12 else 0
  {
    var f := D2DayQuestions(D2Side(los, isD1Wide), Corrected);
    var p := HasLabel(LoLabel(x.loNumber));
    forall k | 0 <= k < 6 ensures CountWhere(f(Weeks[k]), p) == if k == j then 12 else 0 {
      WeekPositions(k);
      assert f(Weeks[k]) == D2Questions(D2Side(los, isD1Wide), k);
      D2DayHit(los, isD1Wide, x, j, k);
    }
    CountFlatMapAt(Weeks, f, p, j, 12);
  }

  /** As written, day `W{w}D2` reads position `(w - 1) div 2`: the objectives at
      positions 0 to 2 of their group are shown their block questions on two days each
      (24 questions) and those at positions 3 to 5 on none. */
  lemma D2WeekCountsAsWritten(los: seq<LearningObjective>, isD1Wide: bool, x: LearningObjective, j: nat)
    requires AllDesigned(los) && x in los && x.condition.Some?
    requires var list := Group(los, 1 - D1Spacing(isD1Wide), VariabilityKey(x)); j < |list| && list[j] == x
    ensures CountWhere(FlatMap(Weeks, D2DayQuestions(D2Side(los, isD1Wide), AsWritten)), HasLabel(LoLabel(x.loNumber)))
              == if j < 3 then 24 else 0
  {
    var f := D2DayQuestions(D2Side(los, isD1Wide), AsWritten);
    var p := HasLabel(LoLabel(x.loNumber));
    var t := PositionsAsWritten;
    forall k | 0 <= k < 6 ensures CountWhere(f(Weeks[k]), p) == if t[k] == j then 12 else 0 {
      WeekPositions(k);
      D2DayHit(los, isD1Wide, x, j, t[k]);
    }
    CountFlatMapIndexed(Weeks, f, p, t, j, 12);
    PairedPositions(j);
  }

  /** The positions the two revisions give week `k + 1`. */
  lemma WeekPositions(k: nat)
    requires k < 6
    ensures Weeks[k] == k + 1
    ensures D2Position(Corrected, Weeks[k]) == k && D2Position(AsWritten, Weeks[k]) == PositionsAsWritten[k]
  {
    if k < 2 { } else if k < 4 { } else { }
  }

  /** Each of the positions 0, 1 and 2 is read on two of the six D2 days as written. */
  lemma PairedPositions(j: nat)
    ensures multiset(PositionsAsWritten)[j] == if j < 3 then 2 else 0
  {
    assert multiset(PositionsAsWritten) == multiset{0, 0, 1, 1, 2, 2};
  }

  /** The D2 days show nothing of an objective of the D1 spacing. */
  lemma D2WeekCountsOther(los: seq<LearningObjective>, isD1Wide: bool, rev: Revision, x: LearningObjective)
    requires AllDesigned(los) && x in los && x.condition.Some?
    requires SpacingKey(x) == D1Spacing(isD1Wide)
    ensures CountWhere(FlatMap(Weeks, D2DayQuestions(D2Side(los, isD1Wide), rev)), HasLabel(LoLabel(x.loNumber))) == 0
  {
    var f := D2DayQuestions(D2Side(los, isD1Wide), rev);
    var p := HasLabel(LoLabel(x.loNumber));
    forall k | 0 <= k < 6 ensures CountWhere(f(Weeks[k]), p) == 0 {
      var index := D2Position(rev, Weeks[k]);
      assert f(Weeks[k]) == D2Questions(D2Side(los, isD1Wide), index);
      D2DayCount(los, isD1Wide, x, index);
    }
    CountFlatMapConst(Weeks, f, p, 0);
  }
  function QuestionsOf(a: Assignment): seq<Question>
  {
    a.questions
  }

  /** The questions of a calendar are those of its pretest, learning days and final tests. */
  lemma CalendarCount(pre: Assignment, days: seq<Assignment>, post: Assignment, pp: Assignment, p: Question -> bool)
    ensures CountWhere(FlatMap([pre] + days + [post, pp], QuestionsOf), p)
              == CountWhere(pre.questions, p) + CountWhere(FlatMap(days, QuestionsOf), p)
                 + CountWhere(post.questions, p) + CountWhere(pp.questions, p)
  {
    var none: seq<Assignment> := [];
    FlatMapConcat([pre] + days, [post, pp], QuestionsOf);
    FlatMapConcat([pre], days, QuestionsOf);
    assert [pre][1..] == none && [post, pp][1..] == [pp] && [pp][1..] == none;
    assert FlatMap([pre], QuestionsOf) == pre.questions + [];
    assert FlatMap([pp], QuestionsOf) == pp.questions + [];
    assert FlatMap([post, pp], QuestionsOf) == post.questions + pp.questions;
    CountConcat(pre.questions, FlatMap(days, QuestionsOf), p);
    CountConcat(FlatMap([pre] + days, QuestionsOf), post.questions + pp.questions, p);
    CountConcat(post.questions, pp.questions, p);
    CountConcat(FlatMap([pre], QuestionsOf), FlatMap(days, QuestionsOf), p);
  }

  // ---------------------------------------------------------------------------
  // The D1 days cover each objective's blocks

  /** The weekly D1 slices of one objective, by week. */
  function WeekSlicesOf(x: LearningObjective): nat -> seq<Question>
  {
    (w: nat) => WeekSlice(x, w)
  }

  lemma TagConcat(lo: LearningObjective, a: seq<Question>, b: seq<Question>)
    ensures Tag(lo, a + b) == Tag(lo, a) + Tag(lo, b)
  {
  }

  /** Weeks `2b + 1` and `2b + 2` take the first and the second half of block `b`. */
  lemma WeekPair(x: LearningObjective, b: nat)
    requires Designed(x) && b < 3
    ensures WeekSlice(x, 2 * b + 1) + WeekSlice(x, 2 * b + 2) == BlockQuestionsOf(x)(x.sequence.value.blocks[b])
  {
    var qs := x.sequence.value.blocks[b].questions;
    assert qs == qs[0..2] + qs[2..4];
    TagConcat(x, qs[0..2], qs[2..4]);
    assert (2 * b + 1 - 1) / 2 == b && (2 * b + 1 - 1) % 2 == 0;
    assert (2 * b + 2 - 1) / 2 == b && (2 * b + 2 - 1) % 2 == 1;
  }

  lemma FlatMapSix<T, U>(s: seq<T>, f: T -> seq<U>)
    requires |s| == 6
    ensures FlatMap(s, f) == f(s[0]) + f(s[1]) + f(s[2]) + f(s[3]) + f(s[4]) + f(s[5])
  {
    var t := s[1..];
    assert t[1..][1..][1..][1..] == [s[5]];
    assert FlatMap(s, f) == f(s[0]) + FlatMap(t, f);
    assert FlatMap(t, f) == f(s[1]) + FlatMap(t[1..], f);
    assert FlatMap(t[1..], f) == f(s[2]) + FlatMap(t[1..][1..], f);
    assert FlatMap(t[1..][1..], f) == f(s[3]) + FlatMap(t[1..][1..][1..], f);
    assert FlatMap(t[1..][1..][1..], f) == f(s[4]) + FlatMap([s[5]], f);
    assert FlatMap([s[5]], f) == f(s[5]);
  }

  lemma FlatMapThree<T, U>(s: seq<T>, f: T -> seq<U>)
    requires |s| == 3
    ensures FlatMap(s, f) == f(s[0]) + f(s[1]) + f(s[2])
  {
    var t := s[1..];
    assert t[1..] == [s[2]];
    assert FlatMap(s, f) == f(s[0]) + FlatMap(t, f);
    assert FlatMap(t, f) == f(s[1]) + FlatMap([s[2]], f);
    assert FlatMap([s[2]], f) == f(s[2]);
  }

  /** The six weekly slices of a designed objective tile its three blocks, so every block
      question is shown once, in block order. */
  lemma D1Coverage(x: LearningObjective)
    requires Designed(x)
    ensures FlatMap(Weeks, WeekSlicesOf(x)) == AllBlockQuestions(Some(x))
  {
    var f := WeekSlicesOf(x);
    var bs := x.sequence.value.blocks;
    var g := BlockQuestionsOf(x);
    var a := WeekSlice(x, 1) + WeekSlice(x, 2);
    var b := WeekSlice(x, 3) + WeekSlice(x, 4);
    var c := WeekSlice(x, 5) + WeekSlice(x, 6);
    WeekPair(x, 0);
    WeekPair(x, 1);
    WeekPair(x, 2);
    FlatMapSix(Weeks, f);
    assert FlatMap(Weeks, f) == a + b + c;
    FlatMapThree(bs, g);
    assert FlatMap(bs, g) == a + b + c;
  }

  /** Every question of a weekly slice of `y` is labelled with `y`. */
  lemma SliceOwned(y: LearningObjective, week: nat)
    requires Designed(y) && 1 <= week <= 6
    ensures Owns(WeekSlice(y, week), y.loNumber)
  {
    var b := (week - 1) / 2;
    var start := ((week - 1) % 2) * 2;
    assert 0 <= b < 3 && (start == 0 || start == 2);
    var qs := y.sequence.value.blocks[b].questions;
    assert WeekSlice(y, week) == Tag(y, qs[start..start + 2]);
  }

  /** Every block question of `y` is labelled with `y`. */
  lemma BlocksOwned(y: LearningObjective)
    requires Designed(y)
    ensures forall q | q in AllBlockQuestions(Some(y)) :: q.lo == LoLabel(y.loNumber)
  {
    var bs := y.sequence.value.blocks;
    var p := HasLabel(LoLabel(y.loNumber));
    forall b | b in bs ensures forall q | q in BlockQuestionsOf(y)(b) :: p(q) {
      var j :| 0 <= j < |bs| && bs[j] == b;
      assert Owns(b.questions, y.loNumber);
    }
    FlatMapAll(bs, BlockQuestionsOf(y), p);
  }

  /** The number of copies of a question `q` of `x` in the weekly slices of some objectives
      of the calendar: those of `x`'s own slice, once per occurrence of `x`. */
  lemma SliceHits(los: seq<LearningObjective>, sub: seq<LearningObjective>, x: LearningObjective, q: Question, week: nat)
    requires AllDesigned(los) && x in los && 1 <= week <= 6 && q.lo == LoLabel(x.loNumber)
    requires forall y | y in sub :: y in los
    ensures CountWhere(FlatMap(sub, WeekSliceOf(week)), Is(q)) == CountWhere(WeekSlice(x, week), Is(q)) * multiset(sub)[x]
  {
    var c := CountWhere(WeekSlice(x, week), Is(q));
    forall j | 0 <= j < |sub|
      ensures CountWhere(WeekSliceOf(week)(sub[j]), Is(q)) == if sub[j] == x then c else 0
    {
      var y := sub[j];
      assert y in sub;
      Related(los, x, y);
      if y != x {
        SliceOwned(y, week);
        var qs := WeekSlice(y, week);
        forall i | 0 <= i < |qs| ensures !Is(q)(qs[i]) {
          if qs[i] == q {
            LoLabelInjective(y.loNumber, x.loNumber);
          }
        }
        CountNone(qs, Is(q));
      }
    }
    CountFlatMapIndexed(sub, WeekSliceOf(week), Is(q), sub, x, c);
  }

  /** A D1 day holds each question of a D1-side objective `x` as often as `x`'s own slice
      of that week does. */
  lemma D1DayHits(los: seq<LearningObjective>, isD1Wide: bool, x: LearningObjective, q: Question, week: nat)
    requires AllDesigned(los) && x in los && SpacingKey(x) == D1Spacing(isD1Wide)
    requires 1 <= week <= 6 && q.lo == LoLabel(x.loNumber)
    ensures CountWhere(D1Questions(D1Side(los, isD1Wide), week), Is(q)) == CountWhere(WeekSlice(x, week), Is(q))
  {
    var s := D1Spacing(isD1Wide);
    var f := WeekSliceOf(week);
    GroupMembers(los, s, 0);
    GroupMembers(los, s, 1);
    SliceHits(los, Group(los, s, 0), x, q, week);
    SliceHits(los, Group(los, s, 1), x, q, week);
    GroupMultiplicity(los, s, 0, x);
    GroupMultiplicity(los, s, 1, x);
    assert x.condition.Some?;
    CountConcat(FlatMap(Group(los, s, 0), f), FlatMap(Group(los, s, 1), f), Is(q));
  }

  /** Across `W1D1 .. W6D1` a question of a D1-side objective `x` is shown as often as it
      stands in `x`'s blocks. */
  lemma D1DaysHits(los: seq<LearningObjective>, isD1Wide: bool, rev: Revision, d: CalendarDraws, x: LearningObjective, q: Question)
    requires DrawsFit(los, isD1Wide, rev, d)
    requires AllDesigned(los) && x in los && SpacingKey(x) == D1Spacing(isD1Wide)
    requires q.lo == LoLabel(x.loNumber)
    ensures CountWhere(FlatMap(LearningDays(los, isD1Wide, rev, d)[..6], QuestionsOf), Is(q))
              == CountWhere(AllBlockQuestions(Some(x)), Is(q))
  {
    var days := LearningDays(los, isD1Wide, rev, d)[..6];
    var d1 := D1Side(los, isD1Wide);
    LearningDayMultisets(los, isD1Wide, rev, d);
    Related(los, x, x);
    forall k | 0 <= k < 6
      ensures CountWhere(QuestionsOf(days[k]), Is(q)) == CountWhere(WeekSlicesOf(x)(Weeks[k]), Is(q))
    {
      CountPermutation(days[k].questions, D1Questions(d1, k + 1), Is(q));
      D1DayHits(los, isD1Wide, x, q, k + 1);
      WeekPositions(k);
    }
    CountFlatMapPointwise(days, QuestionsOf, Weeks, WeekSlicesOf(x), Is(q));
    D1Coverage(x);
  }

  /** Across `W1D1 .. W6D1` a D1-side objective shows its twelve block questions, each
      exactly once, and no other question with its label: the shuffled days hold, among
      the questions of `x`, exactly the questions of its blocks. */
  lemma D1DaysCoverage(los: seq<LearningObjective>, isD1Wide: bool, rev: Revision, d: CalendarDraws, x: LearningObjective)
    requires DrawsFit(los, isD1Wide, rev, d)
    requires AllDesigned(los) && x in los && SpacingKey(x) == D1Spacing(isD1Wide)
    ensures multiset(Filter(FlatMap(LearningDays(los, isD1Wide, rev, d)[..6], QuestionsOf), HasLabel(LoLabel(x.loNumber))))
              == multiset(AllBlockQuestions(Some(x)))
  {
    var all := FlatMap(LearningDays(los, isD1Wide, rev, d)[..6], QuestionsOf);
    var p := HasLabel(LoLabel(x.loNumber));
    var blocks := AllBlockQuestions(Some(x));
    Related(los, x, x);
    BlocksOwned(x);
    forall q ensures multiset(Filter(all, p))[q] == multiset(blocks)[q] {
      FilterMultiplicity(all, p, q);
      if p(q) {
        D1DaysHits(los, isD1Wide, rev, d, x, q);
        CountIsMultiplicity(all, q);
        CountIsMultiplicity(blocks, q);
      } else {
        assert q !in blocks;
      }
    }
    assert multiset(Filter(all, p)) == multiset(blocks);
  }

  /** The D1 days show an objective of the D1 spacing twelve times in all (two questions a
      week) and any other objective never. */
  lemma D1Total(los: seq<LearningObjective>, isD1Wide: bool, x: LearningObjective, days: seq<Assignment>)
    requires AllDesigned(los) && x in los && x.condition.Some?
    requires |days| == 6
    requires forall k | 0 <= k < 6 :: multiset(days[k].questions) == multiset(D1Questions(D1Side(los, isD1Wide), k + 1))
    ensures CountWhere(FlatMap(days, QuestionsOf), HasLabel(LoLabel(x.loNumber)))
              == if SpacingKey(x) == D1Spacing(isD1Wide) then 12 else 0
  {
    var p := HasLabel(LoLabel(x.loNumber));
    var c := if SpacingKey(x) == D1Spacing(isD1Wide) then 2 else 0;
    forall k | 0 <= k < 6 ensures CountWhere(QuestionsOf(days[k]), p) == c {
      CountPermutation(days[k].questions, D1Questions(D1Side(los, isD1Wide), k + 1), p);
      D1DayCount(los, isD1Wide, x, k + 1);
    }
    CountFlatMapConst(days, QuestionsOf, p, c);
  }

  /** The D2 days count an objective as the six D2 day question lists do. */
  lemma D2Total(los: seq<LearningObjective>, isD1Wide: bool, rev: Revision, x: LearningObjective, days: seq<Assignment>)
    requires |days| == 6
    requires forall k | 0 <= k < 6 ::
               multiset(days[k].questions) == multiset(D2Questions(D2Side(los, isD1Wide), D2Position(rev, k + 1)))
    ensures CountWhere(FlatMap(days, QuestionsOf), HasLabel(LoLabel(x.loNumber)))
              == CountWhere(FlatMap(Weeks, D2DayQuestions(D2Side(los, isD1Wide), rev)), HasLabel(LoLabel(x.loNumber)))
  {
    var f := D2DayQuestions(D2Side(los, isD1Wide), rev);
    var p := HasLabel(LoLabel(x.loNumber));
    forall k | 0 <= k < 6 ensures CountWhere(QuestionsOf(days[k]), p) == CountWhere(f(Weeks[k]), p) {
      WeekPositions(k);
      CountPermutation(days[k].questions, D2Questions(D2Side(los, isD1Wide), D2Position(rev, k + 1)), p);
    }
    CountFlatMapPointwise(days, QuestionsOf, Weeks, f, p);
  }

  /** Sorting the learning days does not change what they show. */
  lemma SortedCount(days: seq<Assignment>, n: nat, p: Question -> bool)
    requires n <= |days|
    ensures CountWhere(FlatMap(SortBy(days, DayKey), QuestionsOf), p)
              == CountWhere(FlatMap(days[..n], QuestionsOf), p) + CountWhere(FlatMap(days[n..], QuestionsOf), p)
  {
    var sorted := SortBy(days, DayKey);
    FlatMapPermutation(sorted, days, QuestionsOf);
    CountPermutation(FlatMap(sorted, QuestionsOf), FlatMap(days, QuestionsOf), p);
    CountFlatMapSplit(days, QuestionsOf, p, n);
  }

  /** What the twelve learning days hold, as rearrangements of their question lists. */
  lemma LearningDayMultisets(los: seq<LearningObjective>, isD1Wide: bool, rev: Revision, d: CalendarDraws)
    requires DrawsFit(los, isD1Wide, rev, d)
    ensures var days := LearningDays(los, isD1Wide, rev, d);
      && (forall k | 0 <= k < 6 :: multiset(days[..6][k].questions) == multiset(D1Questions(D1Side(los, isD1Wide), k + 1)))
      && (forall k | 0 <= k < 6 ::
            multiset(days[6..][k].questions) == multiset(D2Questions(D2Side(los, isD1Wide), D2Position(rev, k + 1))))
  {
    var days := LearningDays(los, isD1Wide, rev, d);
    forall k | 0 <= k < 6
      ensures multiset(days[..6][k].questions) == multiset(D1Questions(D1Side(los, isD1Wide), k + 1))
      ensures multiset(days[6..][k].questions) == multiset(D2Questions(D2Side(los, isD1Wide), D2Position(rev, k + 1)))
    {
      LearningDayContents(los, isD1Wide, rev, d, k + 1);
      assert days[..6][k] == days[k] && days[6..][k] == days[k + 6];
    }
  }

  /** How often any calendar built from the test pairs and the learning-day lists of a
      set of designed objectives shows one of them: twice in each test, twelve times on
      the D1 days when it has the D1 spacing, and as often as the six D2 day lists show it. */
  lemma CalendarTotals(
    los: seq<LearningObjective>, isD1Wide: bool, rev: Revision, x: LearningObjective,
    pre: Assignment, days: seq<Assignment>, post: Assignment, pp: Assignment)
    requires AllDesigned(los) && x in los && x.condition.Some?
    requires multiset(pre.questions) == multiset(FlatMap(los, PretestPair))
    requires multiset(post.questions) == multiset(FlatMap(los, PosttestPair))
    requires multiset(pp.questions) == multiset(FlatMap(los, PostposttestPair))
    requires |days| == 12
    requires forall k | 0 <= k < 6 :: multiset(days[..6][k].questions) == multiset(D1Questions(D1Side(los, isD1Wide), k + 1))
    requires forall k | 0 <= k < 6 ::
               multiset(days[6..][k].questions) == multiset(D2Questions(D2Side(los, isD1Wide), D2Position(rev, k + 1)))
    ensures var p := HasLabel(LoLabel(x.loNumber));
      CountWhere(FlatMap([pre] + SortBy(days, DayKey) + [post, pp], QuestionsOf), p)
        == 6 + (if SpacingKey(x) == D1Spacing(isD1Wide) then 12 else 0)
             + CountWhere(FlatMap(Weeks, D2DayQuestions(D2Side(los, isD1Wide), rev)), p)
  {
    var p := HasLabel(LoLabel(x.loNumber));
    CalendarCount(pre, SortBy(days, DayKey), post, pp, p);
    SortedCount(days, 6, p);
    TestTotals(los, x, pre, post, pp);
    LearningTotals(los, isD1Wide, rev, x, days);
  }

  /** The twelve learning days show an objective twelve times on the D1 days when it has
      the D1 spacing, and as often as the six D2 day lists show it. */
  lemma LearningTotals(los: seq<LearningObjective>, isD1Wide: bool, rev: Revision, x: LearningObjective, days: seq<Assignment>)
    requires AllDesigned(los) && x in los && x.condition.Some?
    requires |days| == 12
    requires forall k | 0 <= k < 6 :: multiset(days[..6][k].questions) == multiset(D1Questions(D1Side(los, isD1Wide), k + 1))
    requires forall k | 0 <= k < 6 ::
               multiset(days[6..][k].questions) == multiset(D2Questions(D2Side(los, isD1Wide), D2Position(rev, k + 1)))
    ensures var p := HasLabel(LoLabel(x.loNumber));
      CountWhere(FlatMap(days[..6], QuestionsOf), p) + CountWhere(FlatMap(days[6..], QuestionsOf), p)
        == (if SpacingKey(x) == D1Spacing(isD1Wide) then 12 else 0)
           + CountWhere(FlatMap(Weeks, D2DayQuestions(D2Side(los, isD1Wide), rev)), p)
  {
    D1Total(los, isD1Wide, x, days[..6]);
    D2Total(los, isD1Wide, rev, x, days[6..]);
  }

  /** Each of the three tests shows each objective twice. */
  lemma TestTotals(los: seq<LearningObjective>, x: LearningObjective, pre: Assignment, post: Assignment, pp: Assignment)
    requires AllDesigned(los) && x in los
    requires multiset(pre.questions) == multiset(FlatMap(los, PretestPair))
    requires multiset(post.questions) == multiset(FlatMap(los, PosttestPair))
    requires multiset(pp.questions) == multiset(FlatMap(los, PostposttestPair))
    ensures var p := HasLabel(LoLabel(x.loNumber));
      CountWhere(pre.questions, p) == 2 && CountWhere(post.questions, p) == 2 && CountWhere(pp.questions, p) == 2
  {
    var p := HasLabel(LoLabel(x.loNumber));
    TestCounts(los, x);
    CountPermutation(pre.questions, FlatMap(los, PretestPair), p);
    CountPermutation(post.questions, FlatMap(los, PosttestPair), p);
    CountPermutation(pp.questions, FlatMap(los, PostposttestPair), p);
  }

  /** How often the calendar of a set of designed objectives shows one of them, under
      either revision of the D2 position. */
  lemma CalendarCounts(los: seq<LearningObjective>, isD1Wide: bool, rev: Revision, d: CalendarDraws, x: LearningObjective)
    requires DrawsFit(los, isD1Wide, rev, d) && PostposttestPresent(los)
    requires AllDesigned(los) && x in los && x.condition.Some?
    ensures var p := HasLabel(LoLabel(x.loNumber));
      CountWhere(FlatMap(GenerateStudentAssignment(los, isD1Wide, rev, d), QuestionsOf), p)
        == 6 + (if SpacingKey(x) == D1Spacing(isD1Wide) then 12 else 0)
             + CountWhere(FlatMap(Weeks, D2DayQuestions(D2Side(los, isD1Wide), rev)), p)
  {
    var pretest := Assignment(Shuffled(FlatMap(los, PretestPair), d.pretest), PretestType, "pretest");
    var posttest := Assignment(Shuffled(FlatMap(los, PosttestPair), d.posttest), PosttestType, "posttest");
    var postposttest :=
      Assignment(Shuffled(FlatMap(los, PostposttestPair), d.postposttest), PostposttestType, "postposttest");
    LearningDayMultisets(los, isD1Wide, rev, d);
    CalendarTotals(los, isD1Wide, rev, x, pretest, LearningDays(los, isD1Wide, rev, d), posttest, postposttest);
  }

  /** An objective of the D1 spacing is seen 18 times under either revision: twice in
      each test and two questions on each of its six D1 days. */
  lemma D1SideSeenEighteenTimes(los: seq<LearningObjective>, isD1Wide: bool, rev: Revision, d: CalendarDraws, x: LearningObjective)
    requires DrawsFit(los, isD1Wide, rev, d) && PostposttestPresent(los)
    requires AllDesigned(los) && x in los && SpacingKey(x) == D1Spacing(isD1Wide)
    ensures CountWhere(FlatMap(GenerateStudentAssignment(los, isD1Wide, rev, d), QuestionsOf), HasLabel(LoLabel(x.loNumber))) == 18
  {
    assert x.condition.Some?;
    CalendarCounts(los, isD1Wide, rev, d, x);
    D2WeekCountsOther(los, isD1Wide, rev, x);
  }

  /** Every objective of a balanced calendar of designed objectives is seen 18 times
      with the corrected D2 position: twice in each of the three tests and twelve times on
      the learning days, either two questions on each of its six D1 days or all twelve
      block questions on one D2 day. */
  lemma EachObjectiveSeenEighteenTimes(
    los: seq<LearningObjective>, isD1Wide: bool, d: CalendarDraws, x: LearningObjective)
    requires DrawsFit(los, isD1Wide, Corrected, d) && PostposttestPresent(los)
    requires AllDesigned(los) && Balanced(los) && x in los
    ensures CountWhere(FlatMap(GenerateStudentAssignment(los, isD1Wide, Corrected, d), QuestionsOf), HasLabel(LoLabel(x.loNumber))) == 18
  {
    assert x.condition.Some? by {
      var i :| 0 <= i < |los| && los[i] == x;
    }
    CalendarCounts(los, isD1Wide, Corrected, d, x);
    D2WeekTotal(los, isD1Wide, x);
  }

  /** With the corrected position, the D2 days of a balanced set of designed objectives
      show an objective of the D2 spacing twelve times and one of the D1 spacing never. */
  lemma D2WeekTotal(los: seq<LearningObjective>, isD1Wide: bool, x: LearningObjective)
    requires AllDesigned(los) && Balanced(los) && x in los && x.condition.Some?
    ensures CountWhere(FlatMap(Weeks, D2DayQuestions(D2Side(los, isD1Wide), Corrected)), HasLabel(LoLabel(x.loNumber)))
              == if SpacingKey(x) == D1Spacing(isD1Wide) then 0 else 12
  {
    if SpacingKey(x) == D1Spacing(isD1Wide) {
      D2WeekCountsOther(los, isD1Wide, Corrected, x);
    } else {
      var s := 1 - D1Spacing(isD1Wide);
      var list := Group(los, s, VariabilityKey(x));
      SelectContains(los, SpacingKey, x);
      SelectContains(Select(los, SpacingKey, s), VariabilityKey, x);
      var j :| 0 <= j < |list| && list[j] == x;
      GroupLength(los, s, VariabilityKey(x));
      D2WeekCounts(los, isD1Wide, x, j);
    }
  }

  /** As written, an objective of the D2 spacing at position `j` of its group is seen
      30 times when `j < 3` (its twelve block questions on two D2 days) and only in the
      six test questions otherwise. */
  lemma D2SideCountsAsWritten(
    los: seq<LearningObjective>, isD1Wide: bool, d: CalendarDraws, x: LearningObjective, j: nat)
    requires DrawsFit(los, isD1Wide, AsWritten, d) && PostposttestPresent(los)
    requires AllDesigned(los) && x in los
    requires var list := Group(los, 1 - D1Spacing(isD1Wide), VariabilityKey(x)); j < |list| && list[j] == x
    ensures CountWhere(FlatMap(GenerateStudentAssignment(los, isD1Wide, AsWritten, d), QuestionsOf), HasLabel(LoLabel(x.loNumber)))
              == if j < 3 then 30 else 6
  {
    var s := 1 - D1Spacing(isD1Wide);
    var list := Group(los, s, VariabilityKey(x));
    GroupMembers(los, s, VariabilityKey(x));
    assert list[j] in list;
    assert x.condition.Some?;
    CalendarCounts(los, isD1Wide, AsWritten, d, x);
    D2WeekCountsAsWritten(los, isD1Wide, x, j);
  }

  /** Every learning day of a balanced calendar holds 24 questions: on a D1 day two from
      each of the twelve objectives of the D1 spacing, on a D2 day the twelve block
      questions of one high- and one low-variability objective. */
  lemma DaySizes(los: seq<LearningObjective>, isD1Wide: bool, rev: Revision, week: nat)
    requires AllDesigned(los) && Balanced(los) && 1 <= week <= 6
    ensures |D1Questions(D1Side(los, isD1Wide), week)| == 24
    ensures |D2Questions(D2Side(los, isD1Wide), D2Position(rev, week))| == 24
  {
    var s1 := D1Spacing(isD1Wide);
    D1GroupSize(los, s1, 0, week);
    D1GroupSize(los, s1, 1, week);
    D2GroupSize(los, 1 - s1, 0, rev, week);
    D2GroupSize(los, 1 - s1, 1, rev, week);
  }

  lemma D1GroupSize(los: seq<LearningObjective>, s: int, v: int, week: nat)
    requires AllDesigned(los) && Balanced(los) && 1 <= week <= 6
    requires (s == 0 || s == 1) && (v == 0 || v == 1)
    ensures |FlatMap(Group(los, s, v), WeekSliceOf(week))| == 12
  {
    var g := Group(los, s, v);
    GroupLength(los, s, v);
    GroupMembers(los, s, v);
    assert g[0] in g;
    SliceCounts(los, g, g[0], week);
  }

  lemma D2GroupSize(los: seq<LearningObjective>, s: int, v: int, rev: Revision, week: nat)
    requires AllDesigned(los) && Balanced(los) && 1 <= week <= 6
    requires (s == 0 || s == 1) && (v == 0 || v == 1)
    ensures |AllBlockQuestions(At(Group(los, s, v), D2Position(rev, week)))| == 12
  {
    var g := Group(los, s, v);
    GroupLength(los, s, v);
    GroupMembers(los, s, v);
    var pos := D2Position(rev, week);
    assert 0 <= pos < 6;
    var y := g[pos];
    assert y in g;
    Related(los, y, y);
    BlockCount(y, y);
  }

  /** The position of a condition in the order `generateSequences` hands them out. */
  function ConditionIndex(c: Condition): (k: nat)
    ensures k < 4 && Sequence.Conditions[k] == c
    ensures forall j | 0 <= j < 4 :: Sequence.Conditions[j] == c ==> j == k
  {
    match c
    case Condition(Wide, High) => 0
    case Condition(Narrow, High) => 1
    case Condition(Wide, Low) => 2
    case Condition(Narrow, Low) => 3
  }

  /** 24 objectives whose conditions follow the generator's block order are balanced. */
  lemma ConditionsBalanced(r: seq<LearningObjective>)
    requires |r| == 24 && forall i | 0 <= i < 24 :: r[i].condition == Sequence.ConditionAt(i)
    ensures Balanced(r)
  {
    forall c: Condition ensures CountWhere(r, Sequence.HasCondition(c)) == 6 {
      var k := ConditionIndex(c);
      var p := Sequence.HasCondition(c);
      forall i | 0 <= i < 24 ensures p(r[i]) <==> 6 * k <= i < 6 * k + 6 {
        assert r[i].condition == Some(Sequence.Conditions[i / 6]);
      }
      CountRange(r, p, 6 * k, 6 * k + 6);
    }
  }

  /** The objectives that `generateSequences` returns for 24 inputs are balanced. */
  lemma GeneratedBalanced(los: seq<LearningObjective>, order: seq<nat>, draws: seq<Sequence.LoDraws>)
    requires Sequence.AllDrawsFit(los, order, draws) && |los| == 24
    ensures Balanced(Sequence.GenerateSequences(los, order, draws))
  {
    Sequence.GenerateSequencesShape(los, order, draws);
    ConditionsBalanced(Sequence.GenerateSequences(los, order, draws));
  }

  // ---------------------------------------------------------------------------
  // Conditions

  predicate IsConditioned(q: Question)
  {
    q.condition.Some?
  }

  /** Every objective carries a condition. */
  predicate ObjectivesConditioned(los: seq<LearningObjective>)
  {
    forall i | 0 <= i < |los| :: los[i].condition.Some?
  }

  /** Tagging with the condition of an objective that has one gives every question a
      condition. */
  lemma TagConditioned(lo: LearningObjective, qs: seq<Question>)
    requires lo.condition.Some?
    ensures forall y | y in Tag(lo, qs) :: IsConditioned(y)
  {
    var r := Tag(lo, qs);
    forall y | y in r ensures IsConditioned(y) {
      var i :| 0 <= i < |r| && r[i] == y;
    }
  }

  /** A rearrangement of questions with conditions has only questions with conditions. */
  lemma PermutationConditioned(a: seq<Question>, b: seq<Question>)
    requires multiset(a) == multiset(b) && AllConditioned(b)
    ensures AllConditioned(a)
  {
    forall y | y in a ensures y.condition.Some? {
      assert y in multiset(a);
    }
  }

  /** An assignment of a rearranged calendar is one of the original's. */
  lemma MemberConditioned(a: seq<Assignment>, b: seq<Assignment>, k: nat)
    requires multiset(a) == multiset(b) && Conditioned(b) && k < |a|
    ensures AllConditioned(a[k].questions)
  {
    assert a[k] in multiset(b);
    var i :| 0 <= i < |b| && b[i] == a[k];
  }

  /** The three test lists of objectives with conditions hold only questions with one. */
  lemma PairsConditioned(los: seq<LearningObjective>)
    requires ObjectivesConditioned(los)
    ensures AllConditioned(FlatMap(los, PretestPair))
    ensures AllConditioned(FlatMap(los, PosttestPair))
    ensures AllConditioned(FlatMap(los, PostposttestPair))
  {
    forall x | x in los
      ensures forall y | y in PretestPair(x) :: IsConditioned(y)
      ensures forall y | y in PosttestPair(x) :: IsConditioned(y)
      ensures forall y | y in PostposttestPair(x) :: IsConditioned(y)
    {
      var i :| 0 <= i < |los| && los[i] == x;
      if x.sequence.Some? {
        var sq := x.sequence.value;
        TagConditioned(x, [sq.pretest.questionSet1, sq.pretest.randomQuestionSet]);
        TagConditioned(x, [sq.posttest.questionSet6, sq.posttest.matchingPretest]);
        if sq.postposttest.Some? {
          TagConditioned(x, [sq.postposttest.value.questionSet7, sq.postposttest.value.matchingPretest]);
        }
      }
    }
    FlatMapAll(los, PretestPair, IsConditioned);
    FlatMapAll(los, PosttestPair, IsConditioned);
    FlatMapAll(los, PostposttestPair, IsConditioned);
  }

  /** The week slices of objectives with conditions hold only questions with one. */
  lemma SlicesConditioned(side: seq<LearningObjective>, week: nat)
    requires forall lo | lo in side :: lo.condition.Some?
    ensures AllConditioned(FlatMap(side, WeekSliceOf(week)))
  {
    forall x | x in side ensures forall y | y in WeekSliceOf(week)(x) :: IsConditioned(y) {
      var blockIndex := (week - 1) / 2;
      var start := ((week - 1) % 2) * 2;
      if x.sequence.Some? && 0 <= blockIndex < |x.sequence.value.blocks| {
        TagConditioned(x, Slice(x.sequence.value.blocks[blockIndex].questions, start, start + 2));
      }
    }
    FlatMapAll(side, WeekSliceOf(week), IsConditioned);
  }

  /** The block questions of an objective with a condition all carry it. */
  lemma BlocksConditioned(lo: Option<LearningObjective>)
    requires lo.Some? ==> lo.value.condition.Some?
    ensures AllConditioned(AllBlockQuestions(lo))
  {
    if lo.Some? && lo.value.sequence.Some? {
      var o := lo.value;
      forall b | b in o.sequence.value.blocks ensures forall y | y in BlockQuestionsOf(o)(b) :: IsConditioned(y) {
        TagConditioned(o, b.questions);
      }
      FlatMapAll(o.sequence.value.blocks, BlockQuestionsOf(o), IsConditioned);
    }
  }

  /** The D2 day at any position, over objectives with conditions, holds only questions
      with one. */
  lemma D2DayConditioned(d2: seq<LearningObjective>, index: int)
    requires forall lo | lo in d2 :: lo.condition.Some?
    ensures AllConditioned(D2Questions(d2, index))
  {
    SelectMembers(d2, VariabilityKey, 0);
    SelectMembers(d2, VariabilityKey, 1);
    var h, l := At(Highs(d2), index), At(Lows(d2), index);
    if h.Some? {
      assert h.value in Highs(d2);
    }
    if l.Some? {
      assert l.value in Lows(d2);
    }
    BlocksConditioned(h);
    BlocksConditioned(l);
  }

  /** The twelve learning days over objectives with conditions hold only questions with
      one. */
  lemma LearningDaysConditioned(los: seq<LearningObjective>, isD1Wide: bool, rev: Revision, d: CalendarDraws)
    requires DrawsFit(los, isD1Wide, rev, d) && ObjectivesConditioned(los)
    ensures Conditioned(LearningDays(los, isD1Wide, rev, d))
  {
    var days := LearningDays(los, isD1Wide, rev, d);
    var d1, d2 := D1Side(los, isD1Wide), D2Side(los, isD1Wide);
    forall lo | lo in los ensures lo.condition.Some? {
      var i :| 0 <= i < |los| && los[i] == lo;
    }
    SelectMembers(los, SpacingKey, D1Spacing(isD1Wide));
    SelectMembers(los, SpacingKey, 1 - D1Spacing(isD1Wide));
    SelectMembers(d1, VariabilityKey, 0);
    SelectMembers(d1, VariabilityKey, 1);
    forall i | 0 <= i < 12 ensures AllConditioned(days[i].questions) {
      LearningDayAt(los, isD1Wide, rev, d, i);
      if i < 6 {
        var qs := D1Questions(d1, i + 1);
        SlicesConditioned(Highs(d1), i + 1);
        SlicesConditioned(Lows(d1), i + 1);
        assert AllConditioned(qs);
        PermutationConditioned(Shuffled(qs, d.d1Days[i]), qs);
      } else {
        var qs := D2Questions(d2, D2Position(rev, i - 5));
        D2DayConditioned(d2, D2Position(rev, i - 5));
        PermutationConditioned(Shuffled(qs, d.d2Days[i - 6]), qs);
      }
    }
  }

  /** The calendar of objectives that all carry a condition has a condition on every
      question of every assignment, so the simulator can record each of them. */
  lemma CalendarConditioned(los: seq<LearningObjective>, isD1Wide: bool, rev: Revision, d: CalendarDraws)
    requires DrawsFit(los, isD1Wide, rev, d) && PostposttestPresent(los) && ObjectivesConditioned(los)
    ensures Conditioned(GenerateStudentAssignment(los, isD1Wide, rev, d))
  {
    PairsConditioned(los);
    LearningDaysConditioned(los, isD1Wide, rev, d);
    FramedConditioned(GenerateStudentAssignment(los, isD1Wide, rev, d), los, LearningDays(los, isD1Wide, rev, d));
  }

  /** Fifteen assignments: rearrangements of the test lists around a rearrangement of
      learning days whose questions all carry a condition. */
  lemma FramedConditioned(r: seq<Assignment>, los: seq<LearningObjective>, days: seq<Assignment>)
    requires |r| == 15 && Conditioned(days) && multiset(r[1..13]) == multiset(days)
    requires AllConditioned(FlatMap(los, PretestPair)) && multiset(r[0].questions) == multiset(FlatMap(los, PretestPair))
    requires AllConditioned(FlatMap(los, PosttestPair)) && multiset(r[13].questions) == multiset(FlatMap(los, PosttestPair))
    requires AllConditioned(FlatMap(los, PostposttestPair))
    requires multiset(r[14].questions) == multiset(FlatMap(los, PostposttestPair))
    ensures Conditioned(r)
  {
    forall j | 0 <= j < 15 ensures AllConditioned(r[j].questions) {
      if j == 0 {
        PermutationConditioned(r[0].questions, FlatMap(los, PretestPair));
      } else if j == 13 {
        PermutationConditioned(r[13].questions, FlatMap(los, PosttestPair));
      } else if j == 14 {
        PermutationConditioned(r[14].questions, FlatMap(los, PostposttestPair));
      } else {
        MemberConditioned(r[1..13], days, j - 1);
        assert r[j] == r[1..13][j - 1];
      }
    }
  }

  // ---------------------------------------------------------------------------
  // Generated sequences and the calendar

  /** The objectives `generateSequences` returns carry a sequence and no post-posttest,
      so `generateStudentAssignment` cannot accept them: it throws on the missing
      post-posttest. */
  lemma GeneratedSequencesLackPostposttest(los: seq<LearningObjective>, order: seq<nat>, draws: seq<Sequence.LoDraws>)
    requires Sequence.AllDrawsFit(los, order, draws) && |los| > 0
    ensures !PostposttestPresent(Sequence.GenerateSequences(los, order, draws))
  {
    Sequence.GenerateSequencesShape(los, order, draws);
    var r := Sequence.GenerateSequences(los, order, draws);
    assert r[0].sequence.Some? && r[0].sequence.value.postposttest.None?;
  }
}
