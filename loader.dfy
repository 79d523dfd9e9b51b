/** The grouping and sorting of `parseQuestions` (nsfStudy2/parseQuestions.ts), applied to
    a list of questions: questions are grouped by LO number (first digit run of the `lo`
    label), each LO's questions by set number (the fourth dash field of the id without its
    first character), every set is ordered by question type, the sets by set number and
    the learning objectives by LO number. */
module Loader {
  import opened Wrappers
  import opened Text
  import opened Seqs
  import opened StudyTypes
  import opened QuestionBank

  /** `parseInt(question.lo.match(/\d+/)[0])`; `None` when the label has no digit. The
      match is all digits, so `parseInt` reads it as a decimal number. */
  function LoNumberOf(q: Question): (r: Option<nat>)
    ensures r.None? <==> AllNonDigits(q.lo)
    ensures r.Some? ==> ParseInt(FirstDigitRun(q.lo).value) == Some(r.value as int)
  {
    match FirstDigitRun(q.lo)
    case None => None
    case Some(d) =>
      ParseIntOfDigits(d, []);
      assert d + [] == d;
      Some(DigitsValue(d))
  }

  /** `parseInt(question.id.split("-")[3].substring(1))`; `None` when the id has fewer
      than four fields (reading `substring` of `undefined` throws) or when `parseInt`
      finds no number (`NaN`). White space, a sign and a `0x` prefix are read as
      `parseInt` reads them. */
  function SetNumberOf(q: Question): Option<int>
  {
    var parts := Split(q.id, '-');
    if |parts| < 4 then None else ParseInt(DropFirst(parts[3]))
  }

  /** The map keys, with -1 standing for a missing number. */
  function LoKey(q: Question): int
  {
    match LoNumberOf(q)
    case None => -1
    case Some(n) => n
  }

  function SetKey(q: Question): int
  {
    match SetNumberOf(q)
    case None => -1
    case Some(n) => n
  }

  /** `typeOrder[a.type]`; a label outside the table has no rank in the source and is
      placed after the four known ones here. */
  function TypeRank(q: Question): int
  {
    if q.qtype == "Multiple Choice" then 0
    else if q.qtype == "True or False" then 1
    else if q.qtype == "Fill in Blank" then 2
    else if q.qtype == "Short Answer" then 3
    else 4
  }

  /** The set-number key the set sort reads from a set's first question. */
  function SetNumberOfSet(st: QuestionSet): int
  {
    if st.questions == [] then -1 else SetKey(st.questions[0])
  }

  function LoNumberKey(lo: LearningObjective): int
  {
    lo.loNumber
  }

  function SetQuestions(st: QuestionSet): seq<Question>
  {
    st.questions
  }

  function LoQuestions(lo: LearningObjective): seq<Question>
  {
    match lo.sets
    case None => []
    case Some(ss) => FlatMap(ss, SetQuestions)
  }

  /** Every question of every set of every learning objective, in order. */
  function AllQuestions(los: seq<LearningObjective>): seq<Question>
  {
    FlatMap(los, LoQuestions)
  }

  /** Both numbers can be read from the question. */
  predicate Valid(q: Question)
  {
    LoNumberOf(q).Some? && SetNumberOf(q).Some?
  }

  ghost predicate SetsReadable(g: seq<Question>)
  {
    forall q | q in g :: SetNumberOf(q).Some?
  }

  predicate AllValid(qs: seq<Question>)
  {
    forall i | 0 <= i < |qs| :: Valid(qs[i])
  }

  // ---------------------------------------------------------------------------
  // The result, as a function of the input

  /** The set of number `n` of the group `g`, ordered by type. */
  function SetOf(g: seq<Question>, n: int): QuestionSet
  {
    QuestionSet(SortBy(Select(g, SetKey, n), TypeRank))
  }

  /** The sets of the keys `ks`, in that order. */
  function SetEntries(g: seq<Question>, ks: seq<int>): (r: seq<QuestionSet>)
    ensures |r| == |ks|
  {
    if ks == [] then [] else SetEntries(g, ks[..|ks| - 1]) + [SetOf(g, ks[|ks| - 1])]
  }

  /** All sets of the group, ordered by set number. */
  function SetsOf(g: seq<Question>): seq<QuestionSet>
  {
    SortBy(SetEntries(g, DistinctKeys(g, SetKey)), SetNumberOfSet)
  }

  function LoEntry(qs: seq<Question>, n: nat): LearningObjective
  {
    LearningObjective(n, None, Some(SetsOf(Select(qs, LoKey, n))), None)
  }

  predicate NonNegative(ks: seq<int>)
  {
    forall i | 0 <= i < |ks| :: ks[i] >= 0
  }

  /** The learning objectives of the keys `ks`, in that order. */
  function LoEntries(qs: seq<Question>, ks: seq<int>): (r: seq<LearningObjective>)
    requires NonNegative(ks)
    ensures |r| == |ks|
  {
    if ks == [] then [] else LoEntries(qs, ks[..|ks| - 1]) + [LoEntry(qs, ks[|ks| - 1])]
  }

  lemma LoEntriesNext(qs: seq<Question>, ks: seq<int>, t: nat)
    requires t < |ks| && NonNegative(ks)
    ensures LoEntries(qs, ks[..t + 1]) == LoEntries(qs, ks[..t]) + [LoEntry(qs, ks[t])]
  {
    assert ks[..t + 1][..t] == ks[..t];
  }

  /** The learning objectives `parseQuestions` returns for a valid list. */
  function Grouped(qs: seq<Question>): (r: seq<LearningObjective>)
    requires AllValid(qs)
    ensures |r| == |DistinctKeys(qs, LoKey)|
  {
    LoKeysNonNegative(qs);
    SortBy(LoEntries(qs, DistinctKeys(qs, LoKey)), LoNumberKey)
  }

  lemma LoKeysNonNegative(qs: seq<Question>)
    requires forall i | 0 <= i < |qs| :: LoNumberOf(qs[i]).Some?
    ensures NonNegative(DistinctKeys(qs, LoKey))
  {
    var ks := DistinctKeys(qs, LoKey);
    forall i | 0 <= i < |ks| ensures ks[i] >= 0 {
      DistinctKeysSound(qs, LoKey, ks[i]);
    }
  }

  // ---------------------------------------------------------------------------
  // The procedure

  /** When every LO group has readable set numbers, every question does. */
  lemma AllSetsReadable(questions: seq<Question>, loMap: map<int, seq<Question>>, loKeys: seq<int>)
    requires GroupsOf(loMap, loKeys, questions, LoKey)
    requires forall u | 0 <= u < |loKeys| :: SetsReadable(loMap[loKeys[u]])
    ensures forall j | 0 <= j < |questions| :: SetNumberOf(questions[j]).Some?
  {
    forall j | 0 <= j < |questions| ensures SetNumberOf(questions[j]).Some? {
      var q := questions[j];
      DistinctKeysComplete(questions, LoKey, q);
      SelectContains(questions, LoKey, q);
      var u :| 0 <= u < |loKeys| && loKeys[u] == LoKey(q);
      assert SetsReadable(loMap[loKeys[u]]);
    }
  }

  lemma ReadableNext(questions: seq<Question>, i: nat)
    requires i < |questions| && SetsReadable(questions[..i]) && SetNumberOf(questions[i]).Some?
    ensures SetsReadable(questions[..i + 1])
  {
    assert questions[..i + 1] == questions[..i] + [questions[i]];
  }

  /** The per-LO step: groups one LO's questions by set number in a `Map`, then orders
      each set by type and the sets by the set number of their first question. `None`
      when some question's set number cannot be read. */
  method GroupBySet(questions: seq<Question>) returns (r: Option<seq<QuestionSet>>)
    ensures r.Some? <==> SetsReadable(questions)
    ensures r.Some? ==> r.value == SetsOf(questions)
  {
    var setMap: map<int, seq<Question>> := map[];
    var setKeys: seq<int> := [];
    for i := 0 to |questions|
      invariant SetsReadable(questions[..i])
      invariant GroupsOf(setMap, setKeys, questions[..i], SetKey)
    {
      var question := questions[i];
      var parsed := SetNumberOf(question);
      if parsed.None? {
        return None;
      }
      var setNumber: int := parsed.value;
      ReadableNext(questions, i);
      GroupsOfNext(setMap, setKeys, questions, i, SetKey, setNumber);
      if setNumber !in setMap {
        setMap := setMap[setNumber := []];
        setKeys := setKeys + [setNumber];
      }
      // `setMap.get(setNumber)` finds the array: the key was set just above if missing.
      assert setNumber in setMap;
      setMap := setMap[setNumber := setMap[setNumber] + [question]];
    }
    assert questions[..|questions|] == questions;
    var sets := CollectSets(questions, setMap, setKeys);
    r := Some(SortBy(sets, SetNumberOfSet));
  }

  /** The `setMap.forEach` loop: one set per key, in key order, each sorted by type. */
  method CollectSets(questions: seq<Question>, setMap: map<int, seq<Question>>, setKeys: seq<int>)
    returns (sets: seq<QuestionSet>)
    requires forall i | 0 <= i < |setKeys| ::
               setKeys[i] in setMap && setMap[setKeys[i]] == Select(questions, SetKey, setKeys[i])
    ensures sets == SetEntries(questions, setKeys)
  {
    sets := [];
    for t := 0 to |setKeys|
      invariant sets == SetEntries(questions, setKeys[..t])
    {
      var sortedQuestions := SortBy(setMap[setKeys[t]], TypeRank);
      SetEntriesNext(questions, setKeys, t);
      sets := sets + [QuestionSet(sortedQuestions)];
    }
    assert setKeys[..|setKeys|] == setKeys;
  }

  lemma SetEntriesNext(g: seq<Question>, ks: seq<int>, t: nat)
    requires t < |ks|
    ensures SetEntries(g, ks[..t + 1]) == SetEntries(g, ks[..t]) + [SetOf(g, ks[t])]
  {
    assert ks[..t + 1][..t] == ks[..t];
  }

  /** The first `questions.forEach` loop, which fills `loMap`; the error is its
      "Invalid LO format" exception. */
  method GroupByLo(questions: seq<Question>) returns (r: Result<(map<int, seq<Question>>, seq<int>), string>)
    ensures r.Err? <==> exists i | 0 <= i < |questions| :: LoNumberOf(questions[i]).None?
    ensures r.Ok? ==> GroupsOf(r.value.0, r.value.1, questions, LoKey)
  {
    var loMap: map<int, seq<Question>> := map[];
    var loKeys: seq<int> := [];
    for i := 0 to |questions|
      invariant -1 !in loKeys
      invariant GroupsOf(loMap, loKeys, questions[..i], LoKey)
    {
      var question := questions[i];
      var parsed := LoNumberOf(question);
      if parsed.None? {
        return Err("Invalid LO format for question: " + question.id);
      }
      var loNumber: int := parsed.value;
      GroupsOfNext(loMap, loKeys, questions, i, LoKey, loNumber);
      if loNumber !in loMap {
        loMap := loMap[loNumber := []];
        loKeys := loKeys + [loNumber];
      }
      // `loMap.get(loNumber)` finds the array: the key was set just above if missing.
      assert loNumber in loMap;
      loMap := loMap[loNumber := loMap[loNumber] + [question]];
    }
    assert questions[..|questions|] == questions;
    forall j | 0 <= j < |questions| ensures LoNumberOf(questions[j]).Some? {
      DistinctKeysComplete(questions, LoKey, questions[j]);
    }
    r := Ok((loMap, loKeys));
  }

  /** `parseQuestions` after the file has been read: the LO map is filled in input
      order, then each LO's questions are grouped by set, and the learning objectives
      are sorted by number. The error of the first loop is the "Invalid LO format"
      exception; the set-number error stands for the exception or `NaN` key of the
      second loop. */
  method ParseQuestions(questions: seq<Question>) returns (r: Result<seq<LearningObjective>, string>)
    ensures r.Err? <==> exists i | 0 <= i < |questions| :: !Valid(questions[i])
    ensures r.Ok? ==> AllValid(questions) && r.value == Grouped(questions)
  {
    var grouped := GroupByLo(questions);
    if grouped.Err? {
      return Err(grouped.error);
    }
    var loMap, loKeys := grouped.value.0, grouped.value.1;
    forall j | 0 <= j < |questions| ensures LoNumberOf(questions[j]).Some? {
      DistinctKeysComplete(questions, LoKey, questions[j]);
    }
    LoKeysNonNegative(questions);

    var learningObjectives: seq<LearningObjective> := [];
    for t := 0 to |loKeys|
      invariant forall u | 0 <= u < t :: SetsReadable(loMap[loKeys[u]])
      invariant learningObjectives == LoEntries(questions, loKeys[..t])
    {
      var loNumber := loKeys[t];
      DistinctKeysSound(questions, LoKey, loNumber);
      var sets := GroupBySet(loMap[loNumber]);
      if sets.None? {
        var bad :| bad in loMap[loNumber] && SetNumberOf(bad).None?;
        SelectMembers(questions, LoKey, loNumber);
        assert bad in questions;
        return Err("Invalid set number for question: " + bad.id);
      }
      forall u | 0 <= u <= t ensures SetsReadable(loMap[loKeys[u]]) {
        if u == t {
          assert SetsReadable(loMap[loNumber]);
        }
      }
      assert loMap[loNumber] == Select(questions, LoKey, loNumber);
      assert LearningObjective(loNumber, None, sets, None) == LoEntry(questions, loNumber);
      learningObjectives := learningObjectives + [LearningObjective(loNumber, None, sets, None)];
      LoEntriesNext(questions, loKeys, t);
    }
    assert loKeys[..|loKeys|] == loKeys;
    AllSetsReadable(questions, loMap, loKeys);
    r := Ok(SortBy(learningObjectives, LoNumberKey));
  }

  // ---------------------------------------------------------------------------
  // Lemmas

  lemma {:induction false} LoEntriesAt(qs: seq<Question>, ks: seq<int>, i: nat)
    requires NonNegative(ks) && i < |ks|
    ensures LoEntries(qs, ks)[i] == LoEntry(qs, ks[i])
    decreases |ks|
  {
    var init := ks[..|ks| - 1];
    assert NonNegative(init) by {
      assert forall j | 0 <= j < |init| :: init[j] == ks[j];
    }
    var prev := LoEntries(qs, init);
    assert LoEntries(qs, ks) == prev + [LoEntry(qs, ks[|ks| - 1])];
    if i < |ks| - 1 {
      LoEntriesAt(qs, init, i);
      assert init[i] == ks[i];
      SnocAt(prev, LoEntry(qs, ks[|ks| - 1]), i);
    }
  }

  lemma {:induction false} SetEntriesAt(g: seq<Question>, ks: seq<int>, i: nat)
    requires i < |ks|
    ensures SetEntries(g, ks)[i] == SetOf(g, ks[i])
    decreases |ks|
  {
    var init := ks[..|ks| - 1];
    var prev := SetEntries(g, init);
    assert SetEntries(g, ks) == prev + [SetOf(g, ks[|ks| - 1])];
    if i < |ks| - 1 {
      SetEntriesAt(g, init, i);
      assert init[i] == ks[i];
      SnocAt(prev, SetOf(g, ks[|ks| - 1]), i);
    }
  }

  lemma {:induction false} SetEntriesPartition(g: seq<Question>, ks: seq<int>)
    ensures multiset(FlatMap(SetEntries(g, ks), SetQuestions)) == multiset(Gather(g, SetKey, ks))
    decreases |ks|
  {
    if ks != [] {
      var init, k := ks[..|ks| - 1], ks[|ks| - 1];
      SetEntriesPartition(g, init);
      FlatMapConcat(SetEntries(g, init), [SetOf(g, k)], SetQuestions);
      assert FlatMap([SetOf(g, k)], SetQuestions) == SetQuestions(SetOf(g, k)) + FlatMap([], SetQuestions);
    }
  }

  /** The sets of a group rearrange the group. */
  lemma SetsPartition(g: seq<Question>)
    ensures multiset(FlatMap(SetsOf(g), SetQuestions)) == multiset(g)
  {
    var entries := SetEntries(g, DistinctKeys(g, SetKey));
    FlatMapPermutation(SetsOf(g), entries, SetQuestions);
    SetEntriesPartition(g, DistinctKeys(g, SetKey));
    GroupsPartition(g, SetKey);
  }

  lemma {:induction false} LoEntriesPartition(qs: seq<Question>, ks: seq<int>)
    requires NonNegative(ks)
    ensures multiset(FlatMap(LoEntries(qs, ks), LoQuestions)) == multiset(Gather(qs, LoKey, ks))
    decreases |ks|
  {
    if ks != [] {
      var init, k := ks[..|ks| - 1], ks[|ks| - 1];
      LoEntriesPartition(qs, init);
      FlatMapConcat(LoEntries(qs, init), [LoEntry(qs, k)], LoQuestions);
      assert FlatMap([LoEntry(qs, k)], LoQuestions) == LoQuestions(LoEntry(qs, k)) + FlatMap([], LoQuestions);
      SetsPartition(Select(qs, LoKey, k));
    }
  }

  /** The result partitions the input: every question lands in exactly one set of one
      learning objective, as often as it occurs in the input. */
  lemma GroupedPartition(qs: seq<Question>)
    requires AllValid(qs)
    ensures multiset(AllQuestions(Grouped(qs))) == multiset(qs)
  {
    LoKeysNonNegative(qs);
    var ks := DistinctKeys(qs, LoKey);
    FlatMapPermutation(Grouped(qs), LoEntries(qs, ks), LoQuestions);
    LoEntriesPartition(qs, ks);
    GroupsPartition(qs, LoKey);
  }

  /** The shape of one learning objective of the result: it has sets and no condition
      or sequence yet; its sets are non-empty, ascending by set number without repeats,
      each ordered by type; every question of a set has the LO's number and the set's
      number. */
  ghost predicate LoShape(lo: LearningObjective)
  {
    && lo.condition.None? && lo.sequence.None? && lo.sets.Some?
    && StrictlyAscending(lo.sets.value, SetNumberOfSet)
    && forall st | st in lo.sets.value ::
         && st.questions != []
         && SortedBy(st.questions, TypeRank)
         && forall q | q in st.questions ::
              LoNumberOf(q) == Some(lo.loNumber) && SetNumberOf(q).Some? && SetKey(q) == SetNumberOfSet(st)
  }

  /** The set of a key that occurs in the group: non-empty, every member has that set
      number, and so does the set; the questions of each type come in the order they
      were pushed. */
  lemma SetOfShape(g: seq<Question>, n: int)
    requires n in DistinctKeys(g, SetKey)
    ensures var st := SetOf(g, n);
      && st.questions != [] && SetNumberOfSet(st) == n
      && forall q | q in st.questions :: q in g && SetKey(q) == n
    ensures forall rank :: Select(SetOf(g, n).questions, TypeRank, rank) == Select(Select(g, SetKey, n), TypeRank, rank)
  {
    forall rank ensures Select(SetOf(g, n).questions, TypeRank, rank) == Select(Select(g, SetKey, n), TypeRank, rank) {
      SortByStable(Select(g, SetKey, n), TypeRank, rank);
    }
    SelectOfKey(g, SetKey, n);
    SelectMembers(g, SetKey, n);
    var st := SetOf(g, n);
    forall q | q in st.questions ensures q in g && SetKey(q) == n {
      assert q in multiset(st.questions);
    }
    assert st.questions[0] in st.questions;
  }

  /** A set of objective `n`: non-empty, ordered by type rank, and every member of
      objective `n` with the set's number. */
  ghost predicate SetShaped(st: QuestionSet, n: nat)
  {
    && st.questions != []
    && SortedBy(st.questions, TypeRank)
    && forall q | q in st.questions ::
         LoNumberOf(q) == Some(n) && SetNumberOf(q).Some? && SetKey(q) == SetNumberOfSet(st)
  }

  /** The set built for the `i`-th set number of objective `n`'s group. */
  lemma EntryShaped(qs: seq<Question>, n: nat, i: nat)
    requires AllValid(qs)
    requires i < |DistinctKeys(Select(qs, LoKey, n), SetKey)|
    ensures var g := Select(qs, LoKey, n);
      var ks := DistinctKeys(g, SetKey);
      var st := SetEntries(g, ks)[i];
      SetNumberOfSet(st) == ks[i] && SetShaped(st, n)
  {
    var g := Select(qs, LoKey, n);
    var ks := DistinctKeys(g, SetKey);
    SelectMembers(qs, LoKey, n);
    SetEntriesAt(g, ks, i);
    SetOfShape(g, ks[i]);
    var st := SetEntries(g, ks)[i];
    forall q | q in st.questions
      ensures LoNumberOf(q) == Some(n) && SetNumberOf(q).Some? && SetKey(q) == SetNumberOfSet(st)
    {
      var j :| 0 <= j < |qs| && qs[j] == q;
      assert Valid(qs[j]);
    }
  }

  /** A rearrangement of shaped sets is shaped. */
  lemma RearrangedShaped(entries: seq<QuestionSet>, sets: seq<QuestionSet>, n: nat)
    requires multiset(sets) == multiset(entries)
    requires forall i | 0 <= i < |entries| :: SetShaped(entries[i], n)
    ensures forall st | st in sets :: SetShaped(st, n)
  {
    forall st | st in sets ensures SetShaped(st, n) {
      assert st in multiset(entries);
      var i :| 0 <= i < |entries| && entries[i] == st;
    }
  }

  lemma LoEntryShape(qs: seq<Question>, n: nat)
    requires AllValid(qs) && n in DistinctKeys(qs, LoKey)
    ensures LoShape(LoEntry(qs, n))
  {
    var g := Select(qs, LoKey, n);
    var ks := DistinctKeys(g, SetKey);
    var entries := SetEntries(g, ks);
    forall i | 0 <= i < |ks| ensures SetNumberOfSet(entries[i]) == ks[i] && SetShaped(entries[i], n) {
      EntryShaped(qs, n, i);
    }
    DistinctKeysNoDuplicates(g, SetKey);
    SortByStrict(entries, SetNumberOfSet);
    RearrangedShaped(entries, SortBy(entries, SetNumberOfSet), n);
  }

  /** The shape of the whole result: learning objectives ascending by number without
      repeats, each of the shape above. */
  lemma GroupedShape(qs: seq<Question>)
    requires AllValid(qs)
    ensures StrictlyAscending(Grouped(qs), LoNumberKey)
    ensures forall lo | lo in Grouped(qs) :: LoShape(lo)
  {
    LoKeysNonNegative(qs);
    var ks := DistinctKeys(qs, LoKey);
    var entries := LoEntries(qs, ks);
    forall i | 0 <= i < |ks| ensures LoNumberKey(entries[i]) == ks[i] {
      LoEntriesAt(qs, ks, i);
    }
    DistinctKeysNoDuplicates(qs, LoKey);
    SortByStrict(entries, LoNumberKey);
    forall lo | lo in Grouped(qs) ensures LoShape(lo) {
      assert lo in multiset(entries);
      var i :| 0 <= i < |entries| && entries[i] == lo;
      LoEntriesAt(qs, ks, i);
      LoEntryShape(qs, ks[i]);
    }
  }

  /** The questions of one type in one set of objective `lo`, as the input lists them. */
  function InputRun(qs: seq<Question>, lo: nat, setNumber: int, rank: int): seq<Question>
  {
    Select(Select(Select(qs, LoKey, lo), SetKey, setNumber), TypeRank, rank)
  }

  /** Within every set of the result, the questions of each type come in input order:
      the type sort is stable, and grouping keeps the order of the input. */
  lemma GroupedStable(qs: seq<Question>)
    requires AllValid(qs)
    ensures forall lo | lo in Grouped(qs) :: lo.sets.Some?
    ensures forall lo, st, rank | lo in Grouped(qs) && st in lo.sets.value ::
              Select(st.questions, TypeRank, rank) == InputRun(qs, lo.loNumber, SetNumberOfSet(st), rank)
  {
    GroupedShape(qs);
    LoKeysNonNegative(qs);
    var ks := DistinctKeys(qs, LoKey);
    var entries := LoEntries(qs, ks);
    forall lo, st, rank | lo in Grouped(qs) && st in lo.sets.value
      ensures Select(st.questions, TypeRank, rank) == InputRun(qs, lo.loNumber, SetNumberOfSet(st), rank)
    {
      assert lo in multiset(entries);
      var i :| 0 <= i < |entries| && entries[i] == lo;
      LoEntriesAt(qs, ks, i);
      SetStable(Select(qs, LoKey, ks[i]), st, rank);
    }
  }

  /** A set of the sets of group `g` lists the questions of each type as `g` does. */
  lemma SetStable(g: seq<Question>, st: QuestionSet, rank: int)
    requires st in SetsOf(g)
    ensures Select(st.questions, TypeRank, rank) == Select(Select(g, SetKey, SetNumberOfSet(st)), TypeRank, rank)
  {
    var ks := DistinctKeys(g, SetKey);
    var entries := SetEntries(g, ks);
    assert st in multiset(entries);
    var j :| 0 <= j < |entries| && entries[j] == st;
    SetEntriesAt(g, ks, j);
    SetOfShape(g, ks[j]);
  }

  // ---------------------------------------------------------------------------
  // Round trips with the placeholder bank

  /** The digit regex on "Learning Objective N" yields N. */
  lemma LoNumberOfLabel(q: Question, n: nat)
    requires q.lo == LoLabel(n)
    ensures LoNumberOf(q) == Some(n)
  {
    var prefix := "Learning Objective ";
    assert AllNonDigits(prefix);
    FirstDigitRunAfterText(prefix, NatToString(n));
    DigitsValueOfNatToString(n);
    LeadingDigitsOfConcat(NatToString(n), []);
    assert NatToString(n) + [] == NatToString(n);
  }

  // Arithmetic helpers for `SetNumberOfPlaceholder`: `Pow10Range`, `AtLeastTwice` and
  // `HundredArith` split the place-value reasoning behind `DropHundred` into small steps.

  lemma {:induction false} Pow10Range(m: nat)
    ensures m <= 1 ==> Pow10(m) <= 10
    ensures m == 2 ==> Pow10(m) == 100
    ensures m >= 3 ==> Pow10(m) >= 1000
  {
    if m >= 1 {
      Pow10Range(m - 1);
    }
  }

  /** `String(n).substring(1)` for `n >= 10` parses to the value of the digits after the
      first. */
  lemma DropFirstParse(n: nat)
    requires n >= 10
    ensures ParseInt(DropFirst(NatToString(n))) == Some(DigitsValue(NatToString(n)[1..]))
  {
    var tail := NatToString(n)[1..];
    ParseIntOfDigits(tail, []);
    assert tail + [] == tail;
  }

  /** For `n >= 100`, dropping the first digit of `String(n)` subtracts exactly 100 when
      and only when `n < 200`. */
  lemma DropHundred(n: nat)
    requires n >= 100
    ensures DigitsValue(NatToString(n)[1..]) == n - 100 <==> n < 200
  {
    var str := NatToString(n);
    NatToStringTail(n);
    var P := Pow10(|str| - 1);
    var L := DigitValue(str[0]);
    DigitsValueBound(str[1..]);
    Pow10Range(|str| - 1);
    var M := L * P;
    if L >= 2 {
      AtLeastTwice(L, P);
    }
    HundredArith(n, P, M, DigitsValue(str[1..]));
  }

  lemma {:induction false} AtLeastTwice(L: nat, P: nat)
    requires L >= 2
    ensures L * P >= 2 * P
  {
    if L > 2 {
      AtLeastTwice(L - 1, P);
      assert L * P == (L - 1) * P + P;
    }
  }

  /** The arithmetic behind `DropHundred`: `n` is written with leading place value `P`
      (100 or at least 1000), the leading digit is worth `M`, the rest `V`. */
  lemma HundredArith(n: int, P: int, M: int, V: int)
    requires n >= 100 && P <= n < 10 * P && (P == 100 || P >= 1000)
    requires M >= 2 * P || M == P
    requires V == n - M && 0 <= V < P
    ensures V == n - 100 <==> n < 200
  {
  }

  /** The set number read back from a generated id is the generator's set number exactly
      when that number is at most 99: `100 + setNumber` must have three digits for the
      `substring(1)` to drop only the leading "1". */
  lemma SetNumberOfPlaceholder(q: Question, lo: nat, setNumber: nat, t: QType)
    requires q.id == PlaceholderId(lo, setNumber, t)
    ensures SetNumberOf(q) == Some(setNumber) <==> setNumber <= 99
  {
    PlaceholderIdFields(lo, setNumber, t);
    assert Split(q.id, '-')[3] == NatToString(100 + setNumber);
    DropFirstParse(100 + setNumber);
    DropHundred(100 + setNumber);
  }

  /** Every question of the placeholder bank can be read: both of its numbers are those
      it was generated with, so `parseQuestions` succeeds on the bank. */
  lemma BankReadable(qs: seq<Question>)
    requires IsBank(qs)
    ensures forall k | 0 <= k < |qs| ::
              LoNumberOf(qs[k]) == Some(k / 24 + 1) && SetNumberOf(qs[k]) == Some((k % 24) / 4 + 1)
    ensures AllValid(qs)
  {
    forall k | 0 <= k < |qs|
      ensures LoNumberOf(qs[k]) == Some(k / 24 + 1) && SetNumberOf(qs[k]) == Some((k % 24) / 4 + 1)
    {
      BankAt(qs, k);
      LoNumberOfLabel(qs[k], k / 24 + 1);
      SetNumberOfPlaceholder(qs[k], k / 24 + 1, (k % 24) / 4 + 1, Types[k % 4]);
    }
  }
}
