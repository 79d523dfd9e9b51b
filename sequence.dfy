/** `generateSequences` (nsfStudy2/generateSequence.ts): the parsed learning objectives
    are shuffled, tagged with one of four spacing/variability conditions by position,
    and each gets a pretest pair, three learning blocks and a posttest pair drawn from
    its shuffled question sets; the sets are dropped at the end.

    Every random draw is a parameter: Fisher–Yates swap indices for every
    `shuffleArray`, including the one inside each `selectRandomQuestionFromSet`, and the
    two set numbers drawn by `random.int(2, 5)`. */
module Sequence {
  import opened Wrappers
  import opened Seqs
  import opened Shuffle
  import opened StudyTypes

  /** The four conditions, in the order `conditions` lists them. */
  const Conditions: seq<Condition> :=
    [Condition(Wide, High), Condition(Narrow, High), Condition(Wide, Low), Condition(Narrow, Low)]

  /** The draws for one learning objective. `blockPicks[b][t]` shuffles the set that the
      `t`-th question of block `b` is drawn from; `blockOrders[b]` shuffles a
      high-variability block; `learningSetNumber` is only read for low variability. */
  datatype LoDraws = LoDraws(
    setOrder: seq<nat>,
    pretestSetNumber: nat,
    firstPick: seq<nat>,
    pretestPick: seq<nat>,
    learningSetNumber: nat,
    blockPicks: seq<seq<seq<nat>>>,
    blockOrders: seq<seq<nat>>,
    finalPick: seq<nat>,
    matchingPick: seq<nat>)

  /** A draw from `qset` can be made: the set has a question and the swaps fit it. */
  predicate PickFits(qset: QuestionSet, js: seq<nat>)
  {
    |qset.questions| >= 1 && SwapsFit(js, |qset.questions|)
  }

  /** `selectRandomQuestionFromSet`: the first element of a shuffled copy. */
  function SelectRandomQuestionFromSet(qset: QuestionSet, js: seq<nat>): (q: Question)
    requires PickFits(qset, js)
    ensures q in qset.questions
  {
    var shuffled := Shuffled(qset.questions, js);
    assert shuffled[0] in multiset(shuffled);
    shuffled[0]
  }

  /** `conditions[Math.floor(index / 6)]`, which is undefined from index 24 on. */
  function ConditionAt(index: nat): (c: Option<Condition>)
    ensures c.Some? <==> index < 24
    ensures c.Some? ==> c.value in Conditions
  {
    if index / 6 < 4 then Some(Conditions[index / 6]) else None
  }

  /** The `map` that spreads each learning objective and overwrites its condition. */
  function AssignConditions(los: seq<LearningObjective>): (r: seq<LearningObjective>)
    ensures |r| == |los|
    ensures forall i | 0 <= i < |los| ::
              r[i].condition == ConditionAt(i) && r[i].loNumber == los[i].loNumber
              && r[i].sets == los[i].sets && r[i].sequence == los[i].sequence
  {
    seq(|los|, i requires 0 <= i < |los| => los[i].(condition := ConditionAt(i)))
  }

  /** The objectives tagged with condition `c`. */
  function HasCondition(c: Condition): LearningObjective -> bool
  {
    (lo: LearningObjective) => lo.condition == Some(c)
  }

  /** `lo.condition?.variability === "high"`. */
  predicate IsHigh(lo: LearningObjective)
  {
    lo.condition.Some? && lo.condition.value.variability == High
  }

  /** The set the `t`-th question of every block comes from: `shuffledSets[t + 1]` for
      high variability, `shuffledSets[m - 1]` for low. */
  function LearningSource(sets: seq<QuestionSet>, high: bool, m: nat, t: nat): QuestionSet
    requires |sets| >= 6 && 2 <= m <= 5 && t < 4
  {
    if high then sets[t + 1] else sets[m - 1]
  }

  /** The block draws fit the shuffled sets. */
  predicate BlocksFit(sets: seq<QuestionSet>, high: bool, d: LoDraws)
  {
    && |sets| >= 6 && 2 <= d.learningSetNumber <= 5
    && |d.blockPicks| == 3 && |d.blockOrders| == 3
    && forall b | 0 <= b < 3 ::
         && |d.blockPicks[b]| == 4 && SwapsFit(d.blockOrders[b], 4)
         && forall t | 0 <= t < 4 ::
              PickFits(LearningSource(sets, high, d.learningSetNumber, t), d.blockPicks[b][t])
  }

  /** All draws for `lo` fit: it has at least six sets, the set numbers lie in 2..5, and
      every draw fits the set it is made from. Fewer than six sets makes the source read
      `shuffledSets[5].questions` of `undefined`. */
  predicate DrawsFit(lo: LearningObjective, d: LoDraws)
  {
    && lo.sets.Some? && |lo.sets.value| >= 6
    && SwapsFit(d.setOrder, |lo.sets.value|)
    && 2 <= d.pretestSetNumber <= 5
    && TestsFit(Shuffled(lo.sets.value, d.setOrder), d)
    && BlocksFit(Shuffled(lo.sets.value, d.setOrder), IsHigh(lo), d)
  }

  /** The pretest and posttest draws fit the shuffled sets. */
  predicate TestsFit(sets: seq<QuestionSet>, d: LoDraws)
  {
    && |sets| >= 6 && 2 <= d.pretestSetNumber <= 5
    && PickFits(sets[0], d.firstPick)
    && PickFits(sets[d.pretestSetNumber - 1], d.pretestPick)
    && PickFits(sets[5], d.finalPick)
    && PickFits(sets[d.pretestSetNumber - 1], d.matchingPick)
  }

  /** The pretest: a question from the first shuffled set and one from the set at the
      drawn position `k - 1`, which is neither the first nor the last of the six. */
  function PretestOf(sets: seq<QuestionSet>, d: LoDraws): (p: PretestPhase)
    requires TestsFit(sets, d)
    ensures var k := p.selectedPretestSetNumber;
      && k == d.pretestSetNumber && 2 <= k <= 5 && k - 1 != 0 && k - 1 != 5
      && p.questionSet1 in sets[0].questions
      && p.randomQuestionSet in sets[k - 1].questions
  {
    var k := d.pretestSetNumber;
    PretestPhase(
      SelectRandomQuestionFromSet(sets[0], d.firstPick),
      SelectRandomQuestionFromSet(sets[k - 1], d.pretestPick),
      k)
  }

  /** The posttest: a question from the sixth shuffled set and a matching question from
      the same set the pretest's random question came from. */
  function PosttestOf(sets: seq<QuestionSet>, d: LoDraws): (p: PosttestPhase)
    requires TestsFit(sets, d)
    ensures p.questionSet6 in sets[5].questions
    ensures p.matchingPretest in sets[PretestOf(sets, d).selectedPretestSetNumber - 1].questions
  {
    var k := d.pretestSetNumber;
    assert PretestOf(sets, d).selectedPretestSetNumber == k;
    PosttestPhase(
      SelectRandomQuestionFromSet(sets[5], d.finalPick),
      SelectRandomQuestionFromSet(sets[k - 1], d.matchingPick))
  }

  /** `shuffledSets.slice(1, 5).map(selectRandomQuestionFromSet)`: one question from each
      of the sets at positions 1 to 4. */
  function HighPicks(sets: seq<QuestionSet>, picks: seq<seq<nat>>): (r: seq<Question>)
    requires |sets| >= 5 && |picks| == 4
    requires forall t | 0 <= t < 4 :: PickFits(sets[t + 1], picks[t])
    ensures |r| == 4 && forall t | 0 <= t < 4 :: r[t] in sets[t + 1].questions
  {
    seq(4, t requires 0 <= t < 4 => SelectRandomQuestionFromSet(sets[t + 1], picks[t]))
  }

  /** The four draws of a low-variability block, all from `selected`. */
  function LowPicks(selected: QuestionSet, picks: seq<seq<nat>>): (r: seq<Question>)
    requires |picks| == 4
    requires forall t | 0 <= t < 4 :: PickFits(selected, picks[t])
    ensures |r| == 4 && forall t | 0 <= t < 4 :: r[t] in selected.questions
  {
    seq(4, t requires 0 <= t < 4 => SelectRandomQuestionFromSet(selected, picks[t]))
  }

  /** Block `b` (0-based) as the learning phase pushes it, numbered `b + 1`. */
  function Block(sets: seq<QuestionSet>, high: bool, d: LoDraws, b: nat): (r: QuestionBlock)
    requires BlocksFit(sets, high, d) && b < 3
    ensures r.blockNumber == b + 1 && |r.questions| == 4
  {
    var picks := d.blockPicks[b];
    if high then
      QuestionBlock(Shuffled(HighPicks(sets, picks), d.blockOrders[b]), b + 1)
    else
      QuestionBlock(LowPicks(sets[d.learningSetNumber - 1], picks), b + 1)
  }

  /** The three blocks of the learning phase. */
  function LearningBlocks(sets: seq<QuestionSet>, high: bool, d: LoDraws): (r: seq<QuestionBlock>)
    requires BlocksFit(sets, high, d)
    ensures |r| == 3
    ensures forall b | 0 <= b < 3 :: r[b].blockNumber == b + 1 && |r[b].questions| == 4
  {
    seq(3, b requires 0 <= b < 3 => Block(sets, high, d, b))
  }

  lemma LearningBlockAt(sets: seq<QuestionSet>, high: bool, d: LoDraws, b: nat)
    requires BlocksFit(sets, high, d) && b < 3
    ensures LearningBlocks(sets, high, d)[b] == Block(sets, high, d, b)
  {
  }

  /** The learning phase as the source builds it: `while (blocks.length < 3)` pushes
      blocks, and for low variability an inner `while (questions.length < 4)` pushes
      draws from the one selected set. */
  method BuildLearningBlocks(sets: seq<QuestionSet>, high: bool, d: LoDraws)
    returns (blocks: seq<QuestionBlock>)
    requires BlocksFit(sets, high, d)
    ensures blocks == LearningBlocks(sets, high, d)
  {
    blocks := [];
    ghost var all := LearningBlocks(sets, high, d);
    if high {
      while |blocks| < 3
        invariant |blocks| <= 3 && blocks == all[..|blocks|]
      {
        var blockQuestions := HighPicks(sets, d.blockPicks[|blocks|]);
        var block := QuestionBlock(Shuffled(blockQuestions, d.blockOrders[|blocks|]), |blocks| + 1);
        LearningBlockAt(sets, high, d, |blocks|);
        PrefixNext(blocks, all, block);
        blocks := blocks + [block];
      }
    } else {
      var m := d.learningSetNumber;
      while |blocks| < 3
        invariant |blocks| <= 3 && blocks == all[..|blocks|]
      {
        var selectedSet := sets[m - 1];
        var picks := d.blockPicks[|blocks|];
        ghost var want := LowPicks(selectedSet, picks);
        var questions: seq<Question> := [];
        while |questions| < 4
          invariant |questions| <= 4 && questions == want[..|questions|]
        {
          var q := SelectRandomQuestionFromSet(selectedSet, picks[|questions|]);
          PrefixNext(questions, want, q);
          questions := questions + [q];
        }
        assert questions == want;
        var block := QuestionBlock(questions, |blocks| + 1);
        LearningBlockAt(sets, high, d, |blocks|);
        PrefixNext(blocks, all, block);
        blocks := blocks + [block];
      }
    }
  }

  /** The body of the per-objective `map`: pretest, learning phase and posttest. */
  function SequenceOf(lo: LearningObjective, d: LoDraws): LearningObjective
    requires DrawsFit(lo, d)
  {
    var sets := Shuffled(lo.sets.value, d.setOrder);
    var blocks := LearningBlocks(sets, IsHigh(lo), d);
    lo.(sequence := Some(PhaseSequence(PretestOf(sets, d), blocks, PosttestOf(sets, d), None)))
  }

  /** The draws fit every objective in the order the generator visits them. */
  predicate AllDrawsFit(los: seq<LearningObjective>, order: seq<nat>, draws: seq<LoDraws>)
  {
    SwapsFit(order, |los|) && |draws| == |los| &&
    var tagged := AssignConditions(Shuffled(los, order));
    forall i | 0 <= i < |los| :: DrawsFit(tagged[i], draws[i])
  }

  /** `generateSequences`, from the parsed objectives on. */
  function GenerateSequences(los: seq<LearningObjective>, order: seq<nat>, draws: seq<LoDraws>)
    : (r: seq<LearningObjective>)
    requires AllDrawsFit(los, order, draws)
    ensures |r| == |los|
    ensures forall i | 0 <= i < |r| :: r[i].sets.None? && r[i].sequence.Some? && r[i].sequence.value.postposttest.None?
  {
    var tagged := AssignConditions(Shuffled(los, order));
    seq(|los|, i requires 0 <= i < |los| => SequenceOf(tagged[i], draws[i]).(sets := None))
  }

  // ---------------------------------------------------------------------------
  // Lemmas

  /** With exactly 24 objectives, each condition goes to exactly six of them: the six
      consecutive positions `6c .. 6c + 5` of the shuffled order. */
  lemma ConditionBalance(los: seq<LearningObjective>, c: nat)
    requires |los| == 24 && c < 4
    ensures CountWhere(AssignConditions(los), HasCondition(Conditions[c])) == 6
    ensures forall i | 0 <= i < 24 ::
              AssignConditions(los)[i].condition == Some(Conditions[c]) <==> 6 * c <= i < 6 * c + 6
  {
    var r := AssignConditions(los);
    var p := HasCondition(Conditions[c]);
    forall i | 0 <= i < 24 ensures p(r[i]) <==> 6 * c <= i < 6 * c + 6 {
      assert r[i].condition == Some(Conditions[i / 6]);
    }
    CountRange(r, p, 6 * c, 6 * c + 6);
  }

  /** What `SequenceOf` produces: the objective keeps its number, condition and sets and
      gains a sequence without a post-posttest. The pretest set number lies in 2..5, a
      position other than 0 (first) and 5 (final); the pretest's random question and the
      posttest's matching question come from that same shuffled set; there are exactly
      three blocks, numbered 1 to 3, of four questions each. */
  lemma SequenceOfShape(lo: LearningObjective, d: LoDraws)
    requires DrawsFit(lo, d)
    ensures var r := SequenceOf(lo, d);
      var sets := Shuffled(lo.sets.value, d.setOrder);
      && r.loNumber == lo.loNumber && r.condition == lo.condition && r.sets == lo.sets
      && multiset(sets) == multiset(lo.sets.value)
      && r.sequence.Some? && r.sequence.value.postposttest == None
      && var s := r.sequence.value;
         var k := s.pretest.selectedPretestSetNumber;
         && 2 <= k <= 5 && k - 1 != 0 && k - 1 != 5
         && s.pretest.questionSet1 in sets[0].questions
         && s.pretest.randomQuestionSet in sets[k - 1].questions
         && s.posttest.questionSet6 in sets[5].questions
         && s.posttest.matchingPretest in sets[k - 1].questions
         && |s.blocks| == 3
         && forall b | 0 <= b < 3 :: s.blocks[b].blockNumber == b + 1 && |s.blocks[b].questions| == 4
  {
  }

  /** High variability: block `b` is a shuffle of one question from each of the shuffled
      sets 1 to 4. */
  lemma HighBlocks(lo: LearningObjective, d: LoDraws, b: nat)
    requires DrawsFit(lo, d) && IsHigh(lo) && b < 3
    ensures var sets := Shuffled(lo.sets.value, d.setOrder);
      var picks := HighPicks(sets, d.blockPicks[b]);
      && multiset(SequenceOf(lo, d).sequence.value.blocks[b].questions) == multiset(picks)
      && forall t | 0 <= t < 4 :: picks[t] in sets[t + 1].questions
  {
  }

  /** Low variability: all twelve learning questions come from the one shuffled set
      `m - 1`, where `m` is drawn independently of the pretest set number. */
  lemma LowBlocks(lo: LearningObjective, d: LoDraws)
    requires DrawsFit(lo, d) && !IsHigh(lo)
    ensures var sets := Shuffled(lo.sets.value, d.setOrder);
      var blocks := SequenceOf(lo, d).sequence.value.blocks;
      forall b, t | 0 <= b < 3 && 0 <= t < 4 ::
        blocks[b].questions[t] in sets[d.learningSetNumber - 1].questions
  {
    var sets := Shuffled(lo.sets.value, d.setOrder);
    var blocks := SequenceOf(lo, d).sequence.value.blocks;
    forall b, t | 0 <= b < 3 && 0 <= t < 4
      ensures blocks[b].questions[t] in sets[d.learningSetNumber - 1].questions
    {
      assert blocks[b] == Block(sets, false, d, b);
    }
  }

  function LoNumbers(lo: LearningObjective): seq<nat> { [lo.loNumber] }

  /** The generator's output is the shuffled input, position by position: same number,
      the condition of that position, a sequence, and no sets. The numbers are a
      permutation of the input's. */
  lemma GenerateSequencesShape(los: seq<LearningObjective>, order: seq<nat>, draws: seq<LoDraws>)
    requires AllDrawsFit(los, order, draws)
    ensures var r := GenerateSequences(los, order, draws);
      && |r| == |los|
      && (forall i | 0 <= i < |r| ::
            && r[i].loNumber == Shuffled(los, order)[i].loNumber
            && r[i].condition == ConditionAt(i)
            && r[i].sets == None && r[i].sequence.Some?
            && r[i].sequence.value.postposttest == None)
      && multiset(FlatMap(r, LoNumbers)) == multiset(FlatMap(los, LoNumbers))
  {
    var r := GenerateSequences(los, order, draws);
    var shuffled := Shuffled(los, order);
    var tagged := AssignConditions(shuffled);
    forall i | 0 <= i < |r|
      ensures r[i].loNumber == shuffled[i].loNumber && r[i].condition == ConditionAt(i)
      ensures r[i].sets == None && r[i].sequence.Some? && r[i].sequence.value.postposttest == None
    {
      SequenceOfShape(tagged[i], draws[i]);
    }
    FlatMapPointwise(r, shuffled, LoNumbers, LoNumbers);
    FlatMapPermutation(shuffled, los, LoNumbers);
  }
}
