# nsfStudy2 study pipeline, modelled in Dafny

This project models the batch pipeline in `nsfStudy2`. The pipeline builds a counterbalanced
spacing/variability study and replays it as a synthetic DataShop-style event log:

- **Placeholder question bank** (`generateQuestions.ts`). It holds 24 learning objectives
  (LOs) × 6 question sets × 4 question types. Ids have the form
  `spacing-{1000+lo}-{type}-{100+set}`.
- **Loader** (`parseQuestions.ts`). It groups a flat question list by LO number and then by
  set number, and sorts at three levels.
- **Fisher–Yates shuffle** (`util.ts`). It works on a copy.
- **Sequence generator** (`generateSequence.ts`).
  - It assigns the four conditions by `index div 6`.
  - Each LO gets a pretest pair, three learning blocks and a posttest pair, all drawn from
    its shuffled sets.
- **Calendar builder** (`generateStudentAssignment.ts`). It builds one student's assignments:
  a pretest, six D1 and six D2 learning days, a posttest and a post-posttest, sorted by day.
- **Event simulator** (`simulateStudy.ts`). It has the stage mapping, the response rule,
  event creation, the teacher lookup, and the class / student / assignment / question loops
  with their counters.
- **TSV export** (`convertToTSV` in `generateSimulatedEvents.ts`, with `keysDict` from
  `simulateStudy.types.ts`).

Every random draw becomes an explicit parameter with its range as a precondition:

| randomness in the source | parameter in the model |
|---|---|
| `shuffleArray` | one swap index `js[i] <= i` per position (`Shuffle.SwapsFit`) |
| each `random.int(2, 5)` | a number in `2..5` |
| `Math.random() < 0.5` | `isD1Wide` |
| `Math.random() < 0.7` | `isCorrect` |
| response times and time gaps | natural-number functions of (student, assignment, question) in `Simulation.Draws` |
| `Date.now()` | the parameter `baseStartTime` |

The two forms of code in the source are modelled as follows.

- **Step-by-step code** becomes a Dafny `method` with a loop, proved equal to a
  specification function:
  - the swap loop, on an `array`;
  - the three nested push loops of the bank;
  - the `Map`-filling `forEach` loops of the loader;
  - the `while` loops that build blocks;
  - the two `for` loops over learning days;
  - the nested simulation loops.
- **Pure code** becomes functions with lemmas about them. This covers:
  - the `map` / `flatMap` / `filter` pipelines;
  - the response rule;
  - the TSV join.

Modules, one per source file plus shared helpers:

- `Wrappers` (Option, Result) and `Text`, which models the JavaScript string operations the
  code uses:
  - `String(n)`;
  - `parseInt` (white space, sign, `0x` prefix, digits);
  - the first match of `/\d+/`;
  - `split` and `join` on one character;
  - `includes`;
  - `substring(1)`.
- `Seqs`: counting, `flatMap`, `Map`-style grouping, and the engine's sort as an
  insertion sort that is proved stable (`Seqs.SortByStable`).
- `StudyTypes`: the records of `nsfStudy2.types.ts` and `simulateStudy.types.ts`.
- One module per source file:

  | module | models |
  |---|---|
  | `Shuffle` | `util.ts` |
  | `QuestionBank` | `generateQuestions.ts` |
  | `Loader` | `parseQuestions.ts` |
  | `Sequence` | `generateSequence.ts` |
  | `Calendar`, `CalendarFacts` | `generateStudentAssignment.ts` |
  | `Simulation`, `SimulationFacts` | `simulateStudy.ts` |
  | `Tsv` | `convertToTSV` |

**Two readings of the code.** Two places in the code contradict its own comments and tests
(see "## Findings"). The members concerned take a parameter `rev` of type `Revision`:

- `AsWritten` computes what the code does. `GenerateStudentAssignment(…, AsWritten, …)` and
  `SimulateStudy(AsWritten, …)` are the source's functions.
- `Corrected` computes what the code evidently means.

The two places are the D2 day index of the calendar (`Calendar.D2Position`) and the
true/false response of the simulator (`Simulation.Respond`).

Where the declared types and the code disagree, the model follows the code:

- **Question type labels.** The bank stores the long labels in a question's `type`
  ("Multiple Choice", …). The simulator's `switch` looks for the short codes ("mcq", …), and
  `nsfStudy2.types.ts:6` declares them. The model keeps `type` as a string so that both are
  representable.
- **Condition fields.** `createSimulatedEvent` stores the spacing and variability values in
  `conditionName1`/`conditionName2` and the fixed names in `conditionType1`/`conditionType2`.
  The interface (`simulateStudy.types.ts:21-24`) declares them the other way round.
- **Post-posttest.** `Assignment.type` has no "postposttest" value, and `PhaseSequence` has
  no post-posttest part, yet the calendar builder reads and writes both.
  - The model adds both.
  - The LOs given to the calendar must carry the post-posttest pair
    (`Calendar.PostposttestPresent`). Without it the source throws a TypeError at
    `generateStudentAssignment.ts:152`.
  - `generateSequences` never fills in a post-posttest
    (`CalendarFacts.GeneratedSequencesLackPostposttest`). So every call
    `generateStudentAssignment(generateSequences(…))` in the source, including the one in
    `simulateStudy`, throws there. The calendar and simulation results are therefore stated
    for LOs that carry a post-posttest pair, as the declared call order presumes.
- **Assignment count.** The comment at `nsfStudy2.types.ts:26-27` lists 14 days: the
  pretest, 12 learning days and the posttest. The code returns 15, adding the post-posttest.
  The model follows the code.
- **`isD1Wide`.** The calendar test passes `isD1Wide` as a second argument, which the
  function ignores (it flips its own coin). The model takes the coin as an input.
- **Response rule on bank questions.** Bank questions carry the long labels, so none of
  them reaches the simulator's "mcq" or "tof" case. An incorrect answer to a bank question
  takes the default branch and submits "incorrect answer", under either reading
  (`SimulationFacts.BankQuestionResponse`).
  - `Simulation.WrongLetter` applies only to questions whose `type` is the code "mcq". It
    picks the first of the upper-case "A"–"D" that differs from the key, so "A" for a
    lower-case key such as the bank's "a".
  - The true/false case applies only to type "tof".

## Model

| member | source | states |
|---|---|---|
| Shuffle.Swap | nsfStudy2/util.ts:11 | the swap exchanges positions `i` and `j`, leaves every other position alone, and keeps the multiset |
| Shuffle.Steps | nsfStudy2/util.ts:9-12 | the steps `i = k-1 .. 1` keep length and multiset and never touch a position at or beyond `k` |
| Shuffle.Shuffled | nsfStudy2/util.ts:2-15 | the shuffled copy has the input's length and multiset; inputs of length at most 1 come back unchanged |
| Shuffle.ShuffleArray | nsfStudy2/util.ts:6-15 | the returned array is a fresh copy holding `Shuffled(input, js)`; the input array is unchanged; every index is in bounds when `js[i] <= i` |
| QuestionBank.GeneratePlaceholderQuestion | nsfStudy2/generateQuestions.ts:14-58 | the question has the id `spacing-{1000+lo}-{type}-{100+set}`, the long type label, the stem, the label "Learning Objective {lo}" and no condition; mcq gets choices a–d and key "a", tof the boolean key `true`, all others the key "placeholder" |
| QuestionBank.GenerateAllQuestions | nsfStudy2/generateQuestions.ts:60-81 | the result has 576 questions, and position `24(lo-1) + 4(set-1) + t` holds the placeholder for that LO, set and type (LO-major, then set, then mcq/tof/fib/sha) |
| QuestionBank.FilledSnoc | nsfStudy2/generateQuestions.ts:74-76 | pushing the next triple's question extends the filled prefix by one position |
| QuestionBank.FilledBank | nsfStudy2/generateQuestions.ts:64-80 | all 576 positions filled is the whole bank |
| QuestionBank.PlaceholderIdFields | nsfStudy2/generateQuestions.ts:27 | the id splits on "-" into "spacing", `String(1000+lo)`, the type code and `String(100+set)` |
| QuestionBank.PlaceholderIdInjective | nsfStudy2/generateQuestions.ts:27 | equal ids mean equal LO, set number and type |
| QuestionBank.LoLabelInjective | nsfStudy2/generateQuestions.ts:38 | different LOs get different labels |
| QuestionBank.PositionInverse | nsfStudy2/generateQuestions.ts:64-76 | every index below 576 is the position of an in-range (LO, set, type) triple |
| QuestionBank.PositionInjective | nsfStudy2/generateQuestions.ts:64-76 | no two in-range triples share a position |
| QuestionBank.BankAt | nsfStudy2/generateQuestions.ts:60-81 | index `k` of the bank holds the placeholder of LO `k div 24 + 1`, set `(k mod 24) div 4 + 1`, type `k mod 4` |
| QuestionBank.BankIdAt | nsfStudy2/generateQuestions.ts:27-77 | a triple's id occurs at index `k` if and only if `k` is that triple's position |
| QuestionBank.BankUnique | nsfStudy2/generateQuestions.ts:27-77 | exactly one question per (LO, set, type); all 576 ids are distinct |
| Text.DigitChar | nsfStudy2/generateQuestions.ts:27 | a digit value renders as a decimal digit character |
| Text.DigitValue | nsfStudy2/parseQuestions.ts:22 | a digit character has a value below 10 |
| Text.NatToString | nsfStudy2/generateQuestions.ts:27 | `String(n)` is a non-empty digit string, at least two digits long from 10 on |
| Text.DigitsValueOfNatToString | nsfStudy2/generateQuestions.ts:27 | the digits of `String(n)` have the value `n` |
| Text.LeadingDigits | nsfStudy2/parseQuestions.ts:39 | the leading digit prefix is all digits and is followed by a non-digit or the end |
| Text.LeadingDigitsOfConcat | nsfStudy2/parseQuestions.ts:39 | the leading digits of a digit string followed by a non-digit are that string |
| Text.ParseInt | nsfStudy2/parseQuestions.ts:39 | `parseInt` of any string: the value is negative only when the first character after the leading white space is `-`, and a `-` there never gives a positive value (the readings themselves are the lemmas below) |
| Text.ParseIntOfNatToString | nsfStudy2/parseQuestions.ts:39 | `parseInt(String(n) + rest)` is `n`, for any `rest` that does not start with a digit, `x` or `X` |
| Text.TrimStart | nsfStudy2/parseQuestions.ts:39 | the white-space-trimmed string is no longer than the input and does not start with white space |
| Text.LeadingHexDigits | nsfStudy2/parseQuestions.ts:39 | the hexadecimal prefix is all hex digits and is followed by a non-hex character or the end |
| Text.LeadingHexDigitsOfConcat | nsfStudy2/parseQuestions.ts:39 | the hex prefix of hex digits followed by a non-hex character is those digits |
| Text.ParseMagnitude | nsfStudy2/parseQuestions.ts:39 | without a `0x`/`0X` prefix there is no number exactly when the string is empty or starts with a non-digit; with the prefix, exactly when no hex digit follows it |
| Text.ParseSigned | nsfStudy2/parseQuestions.ts:39 | after the white space, the value is negative only after a leading `-`, and never positive after one |
| Text.ParseIntOfDigits | nsfStudy2/parseQuestions.ts:39 | decimal digits followed by a non-digit read as their value, unless they are a lone `0` before `x`/`X` |
| Text.ParseIntSkipsSpace | nsfStudy2/parseQuestions.ts:39 | leading white space does not change `parseInt` |
| Text.TrimStartAfterSpace | nsfStudy2/parseQuestions.ts:39 | trimming skips a white-space prefix entirely |
| Text.ParseIntSign | nsfStudy2/parseQuestions.ts:39 | a leading `+` changes nothing; a leading `-` keeps NaN as NaN and negates a number |
| Text.ParseIntHex | nsfStudy2/parseQuestions.ts:39 | `0x`/`0X` followed by hex digits and a non-hex character reads as the hexadecimal value |
| Text.ParseIntSpaceAndSign | nsfStudy2/parseQuestions.ts:39 | `parseInt(" 5")` and `parseInt("+5")` are 5, `parseInt("-5")` is -5 |
| Text.ParseIntHexExample | nsfStudy2/parseQuestions.ts:39 | `parseInt("0x1F")` is 31 and `parseInt("0x")` is NaN |
| Text.NatToStringInjective | nsfStudy2/generateQuestions.ts:27 | different numbers render differently |
| Text.FirstDigitRun | nsfStudy2/parseQuestions.ts:18-21 | the match of `/\d+/` is a non-empty digit run, and there is no match exactly when the string has no digit |
| Text.FirstDigitRunAfterText | nsfStudy2/parseQuestions.ts:18 | after a digit-free prefix, the match is the digit run that follows it |
| Text.DropFirst | nsfStudy2/parseQuestions.ts:39 | `substring(1)` drops the first character, or gives "" on "" |
| Text.Split | nsfStudy2/parseQuestions.ts:39 | `split` always gives at least one piece |
| Text.SplitFree | nsfStudy2/parseQuestions.ts:39 | a separator-free string splits into itself |
| Text.SplitPieceThenRest | nsfStudy2/parseQuestions.ts:39 | a separator-free piece, the separator and a rest split into the piece and the rest's pieces |
| Text.SplitJoin | nsfStudy2/generateSimulatedEvents.ts:26 | splitting a join recovers the pieces when no piece holds the separator |
| Text.JoinFree | nsfStudy2/generateSimulatedEvents.ts:26 | joining pieces free of `c` with another separator stays free of `c` |
| Text.NatToStringFree | nsfStudy2/generateQuestions.ts:27 | `String(n)` contains no non-digit character |
| Text.DigitsValueBound | nsfStudy2/parseQuestions.ts:39 | a `d`-digit string is worth less than `10^d` |
| Text.DigitsValueLeading | nsfStudy2/parseQuestions.ts:39 | a digit string is worth its leading digit's place value plus the rest |
| Text.NatToStringLeadingNonZero | nsfStudy2/generateQuestions.ts:27 | `String(n)` for `n >= 1` has no leading zero |
| Text.NatToStringTail | nsfStudy2/parseQuestions.ts:39 | `String(n)` is a leading digit `L >= 1` worth `L*P` with `P <= n < 10P`, followed by digits worth `n - L*P` |
| Seqs.CountWhere | nsfStudy2/generateStudentAssignment.test.ts:40-48 | a count never exceeds the length |
| Seqs.Insert | nsfStudy2/parseQuestions.ts:54-65 | insertion adds exactly one element, after those of smaller or equal key, so the sort built on it is stable |
| Seqs.InsertSorted | nsfStudy2/parseQuestions.ts:54-65 | insertion keeps a sorted list sorted and adds only the inserted element |
| Seqs.SortBy | nsfStudy2/parseQuestions.ts:54-65 | the engine's sort by a key difference returns a rearrangement of the input, sorted by the key (its stability is `Seqs.SortByStable`) |
| Seqs.SortByStable | nsfStudy2/parseQuestions.ts:54-65 | for every key, the elements of that key leave the sort in their input order, as `Array.prototype.sort` guarantees |
| Seqs.InsertSelect | nsfStudy2/parseQuestions.ts:54-65 | inserting `x` puts it in front of the elements of its key and leaves every key's run otherwise unchanged |
| Seqs.SelectCons | nsfStudy2/parseQuestions.ts:54-65 | the elements of one key, read from the front |
| Seqs.FlatMapAll | nsfStudy2/generateStudentAssignment.ts:24-34 | a property of every question of every part holds of every question of the `flatMap` |
| Seqs.CountPermutation | nsfStudy2/util.ts:2-4 | rearranging a list, as the shuffle does, never changes a count |
| Seqs.CountIsMultiplicity | nsfStudy2/generateStudentAssignment.ts:44-95 | counting the elements equal to `x` gives the multiplicity of `x` |
| Seqs.Filter | nsfStudy2/generateStudentAssignment.ts:44-95 | the kept elements number the count of `p`, and each is an element satisfying `p` |
| Seqs.FilterMultiplicity | nsfStudy2/generateStudentAssignment.ts:44-95 | filtering keeps the multiplicity of what satisfies `p` and drops everything else |
| Seqs.SortedUnique | nsfStudy2/generateStudentAssignment.ts:167-177 | with distinct keys, any two sorted rearrangements are equal, so the sort's result does not depend on the engine's algorithm |
| Seqs.GatherPartition | nsfStudy2/parseQuestions.ts:16-31 | the groups of distinct keys plus the unlisted elements rearrange the input |
| Seqs.GroupsPartition | nsfStudy2/parseQuestions.ts:16-31 | the groups of all keys, in first-occurrence order, rearrange the input |
| Seqs.DistinctKeysComplete | nsfStudy2/parseQuestions.ts:23-25 | every element's key becomes a `Map` key |
| Seqs.DistinctKeysNoDuplicates | nsfStudy2/parseQuestions.ts:23-25 | a `Map` key is inserted once |
| Seqs.SortByStrict | nsfStudy2/parseQuestions.ts:72-84 | sorting elements with distinct keys gives a strictly ascending order |
| Loader.LoNumberOf | nsfStudy2/parseQuestions.ts:18-22 | there is no LO number exactly when the `lo` label has no digit; otherwise it is `parseInt` of the first digit run |
| Loader.ReadableNext | nsfStudy2/parseQuestions.ts:37-39 | one more question with a readable set number extends the readable prefix |
| Loader.SetEntries | nsfStudy2/parseQuestions.ts:52-68 | one set per set-number key, each that key's questions stably sorted by type (the order within a type is the input's, `Loader.SetOfShape`) |
| Loader.SetEntriesNext | nsfStudy2/parseQuestions.ts:52-68 | each `setMap.forEach` step pushes the set of the next key |
| Loader.LoEntries | nsfStudy2/parseQuestions.ts:35-82 | one LO per LO-number key |
| Loader.LoEntriesNext | nsfStudy2/parseQuestions.ts:70 | each `loMap.forEach` step pushes the next key's LO |
| Loader.LoKeysNonNegative | nsfStudy2/parseQuestions.ts:22 | parsed LO numbers are non-negative keys |
| Loader.AllSetsReadable | nsfStudy2/parseQuestions.ts:35-39 | when every LO group's set numbers parse, every question's does |
| Loader.GroupBySet | nsfStudy2/parseQuestions.ts:37-81 | fails exactly when some set number cannot be read by `parseInt`; otherwise the sets are grouped by set number, each stably sorted by type, ordered by set number |
| Loader.CollectSets | nsfStudy2/parseQuestions.ts:52-68 | `setMap.forEach` pushes one stably type-sorted set per key, in key order |
| Loader.GroupByLo | nsfStudy2/parseQuestions.ts:16-31 | fails ("Invalid LO format") exactly when some label has no digit; otherwise `loMap` holds every question under its LO number, keys in first-occurrence order; the "Failed to get questions array" branch cannot be reached |
| Loader.ParseQuestions | nsfStudy2/parseQuestions.ts:4-85 | fails exactly when some question's LO number or set number cannot be read (the set number by full `parseInt`: white space, sign, `0x`); otherwise it returns the grouped, sorted LOs, same-type questions of a set in input order (`Loader.GroupedStable`) |
| Loader.LoEntriesAt | nsfStudy2/parseQuestions.ts:35-82 | entry `i` is the LO of key `i` |
| Loader.SetEntriesAt | nsfStudy2/parseQuestions.ts:52-68 | entry `i` is the set of key `i` |
| Loader.SetEntriesPartition | nsfStudy2/parseQuestions.ts:37-52 | the sets of a list of keys rearrange the questions of those keys |
| Loader.SetsPartition | nsfStudy2/parseQuestions.ts:37-81 | the sets of one LO rearrange that LO's questions |
| Loader.LoEntriesPartition | nsfStudy2/parseQuestions.ts:16-82 | the LOs of a list of keys rearrange the questions of those keys |
| Loader.GroupedPartition | nsfStudy2/parseQuestions.ts:16-52 | the output partitions the input: every question lands in one set of one LO, as often as it occurs |
| Loader.SetOfShape | nsfStudy2/parseQuestions.ts:37-65 | the set of a present key is non-empty, its members and first question have that set number, and within it the questions of each type keep their input order |
| Loader.EntryShaped | nsfStudy2/parseQuestions.ts:37-68 | each set built for an LO is non-empty, sorted by type rank, and shares the LO and set numbers |
| Loader.RearrangedShaped | nsfStudy2/parseQuestions.ts:72-80 | sorting the sets keeps each set's shape |
| Loader.LoEntryShape | nsfStudy2/parseQuestions.ts:35-82 | each LO has sets strictly ascending by set number, each sorted Multiple Choice < True or False < Fill in Blank < Short Answer, all members sharing the LO and set numbers |
| Loader.GroupedShape | nsfStudy2/parseQuestions.ts:84 | LOs are strictly ascending by number, and each has the shape above |
| Loader.Grouped | nsfStudy2/parseQuestions.ts:16-84 | one LO per distinct LO number of the input |
| Loader.GroupedStable | nsfStudy2/parseQuestions.ts:16-84 | every LO of the result has sets, and within each set the questions of one type are exactly that LO's, set's and type's questions in the input, in input order |
| Loader.SetStable | nsfStudy2/parseQuestions.ts:37-65 | each set built for an LO lists the questions of each type in the order of that LO's questions of its set number |
| Loader.LoNumberOfLabel | nsfStudy2/parseQuestions.ts:18-22 | the digit regex on "Learning Objective N" yields `N` |
| Loader.DropFirstParse | nsfStudy2/parseQuestions.ts:39 | `parseInt(String(n).substring(1))` is the value of the digits after the first |
| Loader.DropHundred | nsfStudy2/parseQuestions.ts:39 | for `n >= 100`, dropping the first digit subtracts exactly 100 if and only if `n < 200` |
| Loader.SetNumberOfPlaceholder | nsfStudy2/parseQuestions.ts:39 | reading back a generated id gives `setNumber` if and only if `setNumber <= 99` |
| Loader.BankReadable | nsfStudy2/parseQuestions.ts:18-39 | every bank question reads back its own LO and set numbers, so loading the bank succeeds |
| Sequence.SelectRandomQuestionFromSet | nsfStudy2/generateSequence.ts:13-14 | the pick is a member of the set |
| Sequence.ConditionAt | nsfStudy2/generateSequence.ts:24-38 | `conditions[index div 6]` is defined exactly below index 24, and is one of the four conditions |
| Sequence.AssignConditions | nsfStudy2/generateSequence.ts:35-40 | every LO keeps its number, sets and sequence and gets the condition of its position |
| Sequence.PretestOf | nsfStudy2/generateSequence.ts:48-55 | `k` lies in 2..5, so `k - 1` is neither the first set nor the last; `questionSet1` comes from shuffled set 0 and the random question from set `k - 1` |
| Sequence.PosttestOf | nsfStudy2/generateSequence.ts:88-93 | `questionSet6` comes from shuffled set 5, and the matching question from the pretest's set `k - 1` |
| Sequence.HighPicks | nsfStudy2/generateSequence.ts:63-65 | one question from each of shuffled sets 1 to 4, in that order |
| Sequence.LowPicks | nsfStudy2/generateSequence.ts:75-79 | four questions, all from the selected set |
| Sequence.Block | nsfStudy2/generateSequence.ts:66-83 | block `b` is numbered `b + 1` and holds four questions |
| Sequence.LearningBlocks | nsfStudy2/generateSequence.ts:58-85 | three blocks, numbered 1 to 3, of four questions each |
| Sequence.LearningBlockAt | nsfStudy2/generateSequence.ts:58-85 | entry `b` of the learning phase is block `b` |
| Sequence.BuildLearningBlocks | nsfStudy2/generateSequence.ts:58-85 | the `while` loops push exactly the three blocks of the learning phase |
| Sequence.ConditionBalance | nsfStudy2/generateSequence.ts:34-40 | with 24 LOs, each condition goes to exactly six LOs, those at positions `6c .. 6c+5` |
| Sequence.SequenceOfShape | nsfStudy2/generateSequence.ts:44-102 | the LO keeps its number, condition and sets and gains a sequence with no post-posttest. `k` lies in 2..5, and the pretest's random question and the posttest's matching question come from the same shuffled set `k - 1`. `questionSet1` comes from set 0 and `questionSet6` from set 5. There are three blocks numbered 1 to 3, each of four questions |
| Sequence.HighBlocks | nsfStudy2/generateSequence.ts:60-70 | for high variability, each block rearranges one question from each of shuffled sets 1 to 4 |
| Sequence.LowBlocks | nsfStudy2/generateSequence.ts:71-84 | for low variability, all 12 learning questions come from set `m - 1`, where `m` is drawn separately from `k` |
| Sequence.GenerateSequencesShape | nsfStudy2/generateSequence.ts:16-113 | the output follows the shuffled input position by position: same number, the position's condition, a sequence without a post-posttest, `sets` removed; the numbers are a permutation of the input's |
| Sequence.GenerateSequences | nsfStudy2/generateSequence.ts:16-113 | one LO per input LO, each with a sequence that has no post-posttest and with `sets` removed |
| Calendar.Tag | nsfStudy2/generateStudentAssignment.ts:62-67 | every question is its source with `condition` set to the LO's condition, and nothing else changed |
| Calendar.Slice | nsfStudy2/generateStudentAssignment.ts:62-63 | `slice` is the sub-sequence when in range, and never longer than asked |
| Calendar.At | nsfStudy2/generateStudentAssignment.ts:108-109 | `list[index]` is defined exactly in range, and then is that element |
| Calendar.LearningDays | nsfStudy2/generateStudentAssignment.ts:41-127 | twelve learning days, under either reading (the D2 days read position `(w-1) div 2` under `AsWritten`, `w-1` under `Corrected`) |
| Calendar.LearningDayAt | nsfStudy2/generateStudentAssignment.ts:44-127 | day `i` is `W{i+1}D1` for `i < 6` and `W{i-5}D2` otherwise, the D2 day reading the position of the chosen reading |
| Calendar.CollectSlices | nsfStudy2/generateStudentAssignment.ts:56-87 | each D1 `forEach` pushes the two-question slice of every LO whose block exists |
| Calendar.GenerateLearningDays | nsfStudy2/generateStudentAssignment.ts:41-127 | the two `for` loops push exactly the twelve learning days, under either reading (the D2 days read position `(w-1) div 2` under `AsWritten`, `w-1` under `Corrected`) |
| Calendar.PushD1Days | nsfStudy2/generateStudentAssignment.ts:44-95 | the D1 loop pushes `W1D1 .. W6D1` |
| Calendar.PushD2Days | nsfStudy2/generateStudentAssignment.ts:98-127 | the D2 loop pushes `W1D2 .. W6D2` after them, each reading the position of the chosen reading |
| Calendar.GenerateStudentAssignment | nsfStudy2/generateStudentAssignment.ts:21-179 | fifteen assignments: the pretest, the twelve learning days in comparator order, the posttest and the post-posttest, each test a rearrangement of its LOs' pairs |
| CalendarFacts.ContainsAfter | nsfStudy2/generateStudentAssignment.ts:173 | characters that cannot start a match do not change `includes` |
| CalendarFacts.DayNameWeek | nsfStudy2/generateStudentAssignment.ts:168-169 | the week read back from `W{w}D{d}` is `w` |
| CalendarFacts.DayNameD1 | nsfStudy2/generateStudentAssignment.ts:173 | `W{w}D{d}` contains "D1" exactly when `d = 1` |
| CalendarFacts.DayKeyOfName | nsfStudy2/generateStudentAssignment.ts:167-177 | the sort key of `W{w}D{d}` is `2w + d - 1` |
| CalendarFacts.CompareAgreesWithDayKey | nsfStudy2/generateStudentAssignment.ts:167-177 | on two different days, the comparator is negative (or positive) exactly when the key is smaller (or larger) |
| CalendarFacts.LearningDayKeys | nsfStudy2/generateStudentAssignment.ts:92-124 | under either reading, the unsorted days have keys `2, 4, …, 12` and then `3, 5, …, 13` |
| CalendarFacts.InterleaveKeys | nsfStudy2/generateStudentAssignment.ts:167-177 | those keys are distinct and lie in 2..13 |
| CalendarFacts.SortedAt | nsfStudy2/generateStudentAssignment.ts:167-177 | a strictly ascending rearrangement holds the day with key `i + 2` at position `i` |
| CalendarFacts.InterleaveAt | nsfStudy2/generateStudentAssignment.ts:167-177 | any such rearrangement interleaves the D1 and D2 runs |
| CalendarFacts.InterleaveSorted | nsfStudy2/generateStudentAssignment.ts:167-177 | the sort interleaves the days as `W1D1, W1D2, …, W6D2` |
| CalendarFacts.FramedAt | nsfStudy2/generateStudentAssignment.ts:179 | framing by the tests shifts each day by one position |
| CalendarFacts.CalendarShape | nsfStudy2/generateStudentAssignment.ts:167-179 | fifteen assignments: the pretest, `W1D1, W1D2, …, W6D2`, the posttest, the post-posttest |
| CalendarFacts.ScheduleOrder | nsfStudy2/generateStudentAssignment.ts:21-179 | under either reading: 15 assignments, in day order, with the right types and days; each test rearranges the LOs' pairs |
| CalendarFacts.LearningDayContents | nsfStudy2/generateStudentAssignment.ts:89-126 | `W{w}D1` and `W{w}D2` are learning days, each a rearrangement of its LOs' questions; `W{w}D2` holds the blocks at the reading's position |
| CalendarFacts.CountOwned | nsfStudy2/generateStudentAssignment.test.ts:43-48 | counting by label over one LO's questions |
| CalendarFacts.Related | nsfStudy2/generateStudentAssignment.test.ts:36-59 | two LOs of a calendar are the same or have different numbers |
| CalendarFacts.PairCounts | nsfStudy2/generateStudentAssignment.ts:24-34 | each test pair holds two questions of its own LO and none of another |
| CalendarFacts.SliceCount | nsfStudy2/generateStudentAssignment.ts:57-68 | a weekly slice has two questions, of its own LO |
| CalendarFacts.BlockCount | nsfStudy2/generateStudentAssignment.ts:111-119 | an LO's three blocks hold twelve questions, of its own LO |
| CalendarFacts.TestSizes | nsfStudy2/generateStudentAssignment.test.ts:70-72 | each test holds two questions per LO (48 for 24 LOs) |
| CalendarFacts.TestCounts | nsfStudy2/generateStudentAssignment.test.ts:79-88 | each test holds exactly two questions of every LO |
| CalendarFacts.GroupMembers | nsfStudy2/generateStudentAssignment.ts:100-105 | the filtered groups hold LOs of their spacing and variability |
| CalendarFacts.GroupMultiplicity | nsfStudy2/generateStudentAssignment.ts:48-105 | each LO occurs once in the group of its condition and nowhere else |
| CalendarFacts.GroupKeysDistinct | nsfStudy2/generateStudentAssignment.ts:100-105 | filtering keeps LO numbers distinct |
| CalendarFacts.GroupLength | nsfStudy2/generateStudentAssignment.ts:100-109 | in a balanced design each group has six LOs |
| CalendarFacts.SliceCounts | nsfStudy2/generateStudentAssignment.ts:56-87 | the slices of a list of LOs have two questions each, two of `x` per occurrence of `x` |
| CalendarFacts.D1DayCount | nsfStudy2/generateStudentAssignment.ts:44-95 | a D1 day holds two questions of every D1-side LO and none of the others |
| CalendarFacts.AtCount | nsfStudy2/generateStudentAssignment.ts:108-119 | the LO at a position gives twelve questions of `x` if it is `x`, none otherwise |
| CalendarFacts.D2DayCount | nsfStudy2/generateStudentAssignment.ts:98-127 | a D2 day holds twelve questions of `x` when `x` is at the day's position of its group on the D2 side, and none otherwise |
| CalendarFacts.D2PairCount | nsfStudy2/generateStudentAssignment.ts:108-119 | the same count, for the high and low LO at one position |
| CalendarFacts.D2DayHit | nsfStudy2/generateStudentAssignment.ts:108-119 | the LO at position `j` of its group is seen on a D2 day exactly when the day reads position `j` |
| CalendarFacts.D2WeekCounts | nsfStudy2/generateStudentAssignment.ts:98-127 | with the corrected index, each D2-side LO at position `j < 6` gets its twelve block questions exactly once across the six D2 days |
| CalendarFacts.D2WeekCountsAsWritten | nsfStudy2/generateStudentAssignment.ts:108-109 | with `(w-1) div 2`, D2-side LOs at positions 0–2 get 24 D2 questions and those at 3–5 get none |
| CalendarFacts.WeekPositions | nsfStudy2/generateStudentAssignment.ts:108-109 | week `k+1` reads position `k` when corrected and `PositionsAsWritten[k]` (0, 0, 1, 1, 2, 2) as written |
| CalendarFacts.PairedPositions | nsfStudy2/generateStudentAssignment.ts:108-109 | as written, positions 0, 1 and 2 are read twice each, all others never |
| CalendarFacts.D2WeekCountsOther | nsfStudy2/generateStudentAssignment.ts:98-127 | under either reading, the D2 days show nothing of a D1-side LO |
| CalendarFacts.CalendarCount | nsfStudy2/generateStudentAssignment.ts:179 | a calendar's count is the sum of its tests' and days' counts |
| CalendarFacts.D1Total | nsfStudy2/generateStudentAssignment.ts:44-95 | over the six D1 days, a D1-side LO is seen 12 times and any other LO never |
| CalendarFacts.D1Coverage | nsfStudy2/generateStudentAssignment.ts:57-68 | the six weekly slices of an LO with three four-question blocks, in week order, are exactly its twelve block questions in block order: weeks `2b+1` and `2b+2` take the two halves of block `b`, so no slice repeats or skips a question |
| CalendarFacts.WeekPair | nsfStudy2/generateStudentAssignment.ts:57-68 | weeks `2b+1` and `2b+2` take the first and the second half of block `b` |
| CalendarFacts.SliceOwned | nsfStudy2/generateStudentAssignment.ts:57-68 | every question of a weekly slice carries its LO's label |
| CalendarFacts.BlocksOwned | nsfStudy2/generateStudentAssignment.ts:57-68 | every block question carries its LO's label |
| CalendarFacts.SliceHits | nsfStudy2/generateStudentAssignment.ts:44-86 | in the weekly slices of a list of LOs, a question of `x` occurs as often as in `x`'s own slice times the occurrences of `x` in the list |
| CalendarFacts.D1DayHits | nsfStudy2/generateStudentAssignment.ts:44-86 | a D1 day's unshuffled list holds a question of a D1-side LO as often as that LO's slice of the week |
| CalendarFacts.D1DaysHits | nsfStudy2/generateStudentAssignment.ts:44-95 | under either reading, over the six shuffled D1 days a question of a D1-side LO occurs as often as in its blocks |
| CalendarFacts.D1DaysCoverage | nsfStudy2/generateStudentAssignment.ts:44-95 | under either reading, across W1D1..W6D1 the questions labelled with a D1-side LO are, as a multiset, exactly its twelve block questions: each appears once and nothing else of that LO appears |
| CalendarFacts.D2Total | nsfStudy2/generateStudentAssignment.ts:98-127 | under either reading, the shuffled D2 days count as their unshuffled question lists do |
| CalendarFacts.SortedCount | nsfStudy2/generateStudentAssignment.ts:167-177 | sorting the days changes no count |
| CalendarFacts.LearningDayMultisets | nsfStudy2/generateStudentAssignment.ts:89-126 | under either reading, each shuffled day rearranges its question list |
| CalendarFacts.CalendarTotals | nsfStudy2/generateStudentAssignment.ts:21-179 | in any calendar framed from such tests and days, an LO is counted 6 times in the tests, plus 12 if it is on the D1 side, plus its count over the six D2 days of the reading |
| CalendarFacts.TestTotals | nsfStudy2/generateStudentAssignment.ts:21-164 | each test shows each LO twice |
| CalendarFacts.LearningTotals | nsfStudy2/generateStudentAssignment.ts:41-127 | across the twelve learning days an LO is seen 12 times if it is on the D1 side, plus its count over the D2 days of the reading |
| CalendarFacts.EachObjectiveSeenEighteenTimes | nsfStudy2/generateStudentAssignment.test.ts:36-59 | in a balanced design with the corrected D2 index, every LO is seen 18 times: 2 + 2 + 2 in the tests, and 12 on the learning days |
| CalendarFacts.CalendarCounts | nsfStudy2/generateStudentAssignment.ts:21-179 | for the builder's own calendar, under either reading: 6 in the tests, plus 12 on the D1 side, plus the D2 days' count |
| CalendarFacts.D1SideSeenEighteenTimes | nsfStudy2/generateStudentAssignment.test.ts:36-59 | under either reading, each D1-side LO is seen 18 times |
| CalendarFacts.D2WeekTotal | nsfStudy2/generateStudentAssignment.ts:98-127 | in a balanced design with the corrected index, the D2 days show a D2-side LO 12 times and a D1-side LO never |
| CalendarFacts.D2SideCountsAsWritten | nsfStudy2/generateStudentAssignment.ts:108-109 | as written, a D2-side LO at position `j` of its group is seen 30 times when `j < 3` and 6 times otherwise, against the test's 18 |
| CalendarFacts.DaySizes | nsfStudy2/generateStudentAssignment.test.ts:101-159 | under either reading, every D1 and D2 day holds 24 questions |
| CalendarFacts.D1GroupSize | nsfStudy2/generateStudentAssignment.ts:56-87 | each group gives a D1 day 12 questions |
| CalendarFacts.D2GroupSize | nsfStudy2/generateStudentAssignment.ts:108-119 | under either reading, each group gives a D2 day 12 questions |
| CalendarFacts.ConditionIndex | nsfStudy2/generateSequence.ts:27-32 | every condition has one position in the condition list |
| CalendarFacts.ConditionsBalanced | nsfStudy2/generateSequence.ts:34-40 | conditions by `index div 6` give six LOs per condition |
| CalendarFacts.GeneratedBalanced | nsfStudy2/generateSequence.ts:16-113 | the generator's output for 24 LOs is balanced |
| CalendarFacts.GeneratedSequencesLackPostposttest | nsfStudy2/generateSequence.ts:94-101 | the output of `generateSequences` (for at least one LO) fails the calendar builder's post-posttest precondition |
| CalendarFacts.TagConditioned | nsfStudy2/generateStudentAssignment.ts:62-67 | tagging with a present condition gives every question a condition |
| CalendarFacts.PermutationConditioned | nsfStudy2/util.ts:2-15 | a rearrangement of questions that all have conditions has them too |
| CalendarFacts.MemberConditioned | nsfStudy2/generateStudentAssignment.ts:167-177 | every assignment of a rearrangement of conditioned assignments is conditioned |
| CalendarFacts.PairsConditioned | nsfStudy2/generateStudentAssignment.ts:24-34 | the test pairs of conditioned LOs all carry a condition |
| CalendarFacts.SlicesConditioned | nsfStudy2/generateStudentAssignment.ts:56-87 | D1 slices of conditioned LOs all carry a condition |
| CalendarFacts.BlocksConditioned | nsfStudy2/generateStudentAssignment.ts:111-119 | the block questions of a conditioned LO, or of a missing one, all carry a condition |
| CalendarFacts.D2DayConditioned | nsfStudy2/generateStudentAssignment.ts:108-119 | a D2 day of conditioned LOs holds only conditioned questions |
| CalendarFacts.LearningDaysConditioned | nsfStudy2/generateStudentAssignment.ts:41-127 | under either reading, every learning day of conditioned LOs holds only conditioned questions |
| CalendarFacts.FramedConditioned | nsfStudy2/generateStudentAssignment.ts:179 | framing conditioned days by conditioned tests gives a conditioned calendar |
| CalendarFacts.CalendarConditioned | nsfStudy2/generateStudentAssignment.ts:21-179 | under either reading, the calendar of conditioned LOs has a condition on every question of every assignment |
| Simulation.StageOfLabel | nsfStudy2/simulateStudy.ts:65-78 | the stage is one of the four, and is "learning" exactly for a type other than pretest / posttest / postposttest |
| Simulation.FirstOther | nsfStudy2/simulateStudy.ts:43 | the first option different from the key, and none exactly when every option equals it |
| Simulation.WrongLetter | nsfStudy2/simulateStudy.ts:43 | an incorrect mcq answer is a letter A–D other than the key: "B" for the key "A", "A" otherwise |
| Simulation.GenerateSimulatedResponseAsWritten | nsfStudy2/simulateStudy.ts:31-63 | as written: correct outcome exactly when `isCorrect`, and then the key is submitted; an incorrect answer differs from the key except for the boolean key `true` (and a free-text key "incorrect answer"); mcq gives a letter, tof "true"/"false" |
| Simulation.GenerateSimulatedResponse | nsfStudy2/simulateStudy.ts:31-63 | the corrected rule, used under `Corrected`: correct outcome exactly when `isCorrect`, and then the key is submitted; an incorrect answer differs from the key (mcq a letter, tof "true"/"false") |
| Simulation.CreateSimulatedEvent | nsfStudy2/simulateStudy.ts:80-98 | under either reading, the event exists exactly when the question has a condition |
| Simulation.CreatedEventFields | nsfStudy2/simulateStudy.ts:89-129 | the error names the question, assignment type and day. The event records: the fixed level and course "AP Biology", condition types "Standard Spacing" and "Question Variability", action "Select", school 1 and experiment 1; student, session, class and teacher; start time, end time = start + response time, due date 7 days later; stem, id, topic, last id field, type and key; the condition values; the stage of the type and the day; the selection both as `input` and `selection` and the outcome, both from the response rule of the reading (the source's under `AsWritten`) |
| Simulation.FindTeacherSpec | nsfStudy2/simulateStudy.ts:138-144 | there is no teacher exactly when no entry lists the class; otherwise it is the first entry listing it |
| Simulation.ClassOf | nsfStudy2/simulateStudy.ts:136-150 | a study student sits in one of classes 1..6 |
| Simulation.CollectLength | nsfStudy2/simulateStudy.ts:164-175 | one event per call |
| Simulation.CollectAt | nsfStudy2/simulateStudy.ts:164-175 | the events exist exactly when every call succeeds, and event `i` is call `i`'s |
| Simulation.CollectConcat | nsfStudy2/simulateStudy.ts:158-182 | events of consecutive lists concatenate, or stop at the first error |
| Simulation.CollectSnoc | nsfStudy2/simulateStudy.ts:174 | one more call pushes one more event or stops |
| Simulation.QuestionRunErr | nsfStudy2/simulateStudy.ts:164-180 | an error stops the assignment |
| Simulation.PlanRunErr | nsfStudy2/simulateStudy.ts:158-182 | an error stops the calendar |
| Simulation.QuestionStep | nsfStudy2/simulateStudy.ts:164-180 | one question step keeps the loop state or ends with the assignment's error |
| Simulation.RecordAssignment | nsfStudy2/simulateStudy.ts:164-180 | the question loop yields the events of the assignment's calls, and its clock, or the first error |
| Simulation.RecordNextQuestion | nsfStudy2/simulateStudy.ts:165-179 | one question: an event and the next loop state, or the assignment's error |
| Simulation.PlanRunStep | nsfStudy2/simulateStudy.ts:158-182 | the next assignment's calls follow in the next session, after the drawn gap |
| Simulation.AssignmentStep | nsfStudy2/simulateStudy.ts:158-182 | one assignment step keeps the student-loop state or ends with the calendar's error |
| Simulation.RecordStudent | nsfStudy2/simulateStudy.ts:155-182 | a student's loop yields the events of their calendar's calls, or the first error |
| Simulation.RecordNextAssignment | nsfStudy2/simulateStudy.ts:158-182 | one assignment: its events and the next state, or the calendar's error |
| Simulation.ClassEventsErr | nsfStudy2/simulateStudy.ts:146-184 | an error stops the class |
| Simulation.StudyEventsErr | nsfStudy2/simulateStudy.ts:136-185 | an error stops the study |
| Simulation.StudentCallsAt | nsfStudy2/simulateStudy.ts:146-183 | the class loop runs each student's calendar with their number and first session |
| Simulation.StudentStep | nsfStudy2/simulateStudy.ts:146-184 | one student step keeps the class-loop state or ends with the class's error |
| Simulation.RecordClass | nsfStudy2/simulateStudy.ts:146-184 | a class's loop yields its events and moves the student and session counters past its students |
| Simulation.ClassStep | nsfStudy2/simulateStudy.ts:136-185 | one class step extends the study's events or ends with the study's error |
| Simulation.NoTeacherStep | nsfStudy2/simulateStudy.ts:142-144 | in a study of any number of classes, a class without a teacher ends the whole run with "No teacher assigned to class" for that class (for the configured table every class 1-6 has one, by SimulationFacts.TeachersFoundHolds) |
| Simulation.RunStudy | nsfStudy2/simulateStudy.ts:132-188 | for any event maker, the loops yield the events of the study, class after class, or the first error |
| Simulation.SimulateStudy | nsfStudy2/simulateStudy.ts:132-188 | `simulateStudy` with `createSimulatedEvent` of the chosen reading as the event maker; `AsWritten` is the source |
| SimulationFacts.StagesOfTypes | nsfStudy2/simulateStudy.ts:65-78 | pretest → "pre-test", learning → "learning", posttest → "post-test", postposttest → "post-post-test", and the four differ |
| SimulationFacts.TrueFalseAsWrittenSubmitsKey | nsfStudy2/simulateStudy.ts:46-53 | as written, an incorrect answer to a tof question with the boolean key `true` submits the key, graded INCORRECT |
| SimulationFacts.ResponseCorrection | nsfStudy2/simulateStudy.ts:46-53 | the corrected response differs from the as-written one exactly on that case |
| SimulationFacts.PlaceholderEventObjective | nsfStudy2/simulateStudy.ts:116 | for a bank question, `kcLearningObjective` is `String(100 + set)` |
| SimulationFacts.BankQuestionResponse | nsfStudy2/simulateStudy.ts:31-63 | for a bank question, under either reading, an incorrect answer is "incorrect answer" graded INCORRECT and a correct one is the key graded CORRECT |
| SimulationFacts.ClassEventsFlat | nsfStudy2/simulateStudy.ts:146-184 | a class's events are those of its calls in order |
| SimulationFacts.StudyEventsFlat | nsfStudy2/simulateStudy.ts:136-185 | with teachers for all classes so far, the study's events are those of all calls in order |
| SimulationFacts.StudyStep | nsfStudy2/simulateStudy.ts:136-185 | class `n` adds its calls after the earlier ones |
| SimulationFacts.StudyEventsUntaught | nsfStudy2/simulateStudy.ts:142-144 | a class without a teacher makes the run fail |
| SimulationFacts.TeacherTable | nsfStudy2/simulateStudy.ts:25-28 | classes 1–3 resolve to 101, classes 4–6 to 102, all others to none |
| SimulationFacts.TeachersFoundHolds | nsfStudy2/simulateStudy.ts:138-144 | every class has a teacher, so the no-teacher error never fires |
| SimulationFacts.SimulatedEventsAreCallEvents | nsfStudy2/simulateStudy.ts:132-188 | the result is the events of all the study's calls, in order, or the first error |
| SimulationFacts.CollectFirstErr | nsfStudy2/simulateStudy.ts:94-98 | the error is that of the first failing call |
| SimulationFacts.CallEventsError | nsfStudy2/simulateStudy.ts:94-98 | the events exist exactly when every question has a condition; otherwise the error names the first question without one, with its assignment's type and day |
| SimulationFacts.EventOfCall | nsfStudy2/simulateStudy.ts:94-98 | one call's event exists exactly when its question has a condition; otherwise the error names the question, its assignment's type and day |
| SimulationFacts.AnswerableConcat | nsfStudy2/simulateStudy.ts:158-182 | calls of two runs are all answerable exactly when those of each run are |
| SimulationFacts.QuestionRunAnswerable | nsfStudy2/simulateStudy.ts:164-180 | an assignment of conditioned questions makes only answerable calls |
| SimulationFacts.PlanRunAnswerable | nsfStudy2/simulateStudy.ts:158-182 | a conditioned calendar makes only answerable calls |
| SimulationFacts.StudentsCallsAnswerable | nsfStudy2/simulateStudy.ts:146-183 | students with conditioned calendars make only answerable calls |
| SimulationFacts.StudyEventsOk | nsfStudy2/simulateStudy.ts:132-188 | with 120 conditioned calendars the study never fails, and it records one event per question of all calendars |
| SimulationFacts.GeneratedCalendarsSimulate | nsfStudy2/simulateStudy.ts:132-188 | when every student's calendar is the builder's calendar of conditioned LOs with post-posttests, the study never fails |
| SimulationFacts.QuestionRunLength | nsfStudy2/simulateStudy.ts:164-180 | one call per question |
| SimulationFacts.PlanRunLength | nsfStudy2/simulateStudy.ts:158-182 | one call per question of the calendar |
| SimulationFacts.QuestionRunCallAt | nsfStudy2/simulateStudy.ts:164-173 | call `i` asks question `i` for the seat and session, with the drawn response time and correctness |
| SimulationFacts.QuestionRunTimes | nsfStudy2/simulateStudy.ts:160-179 | start times never go back and lie between the start and the final clock |
| SimulationFacts.QuestionsBeforeMonotone | nsfStudy2/simulateStudy.ts:158-182 | more assignments never mean fewer questions |
| SimulationFacts.PlanRunCallAt | nsfStudy2/simulateStudy.ts:158-182 | question `i` of assignment `j` is call `QuestionsBefore(j) + i`, in session `first + j`, so all events of one assignment share a session |
| SimulationFacts.ClassOfStudentNumber | nsfStudy2/simulateStudy.ts:134-183 | the `j`-th student of class `c` is in class `c` |
| SimulationFacts.StudentCallsSeated | nsfStudy2/simulateStudy.ts:146-183 | the student at position `j` of a class is study student `StudentNumber(c, j) + 1` |
| SimulationFacts.ClassCallsNext | nsfStudy2/simulateStudy.ts:146-183 | one more student of a class is one more student of the study |
| SimulationFacts.StudentsCallsSnoc | nsfStudy2/simulateStudy.ts:183 | the students' calls grow by one student at a time |
| SimulationFacts.ClassCallsByStudent | nsfStudy2/simulateStudy.ts:134-183 | a class's students are the next students in the study's numbering |
| SimulationFacts.StudyCallsByStudent | nsfStudy2/simulateStudy.ts:134-185 | the study's calls are those of students 1, 2, … in turn, none skipped or repeated |
| SimulationFacts.StudentsCallsCount | nsfStudy2/simulateStudy.ts:164-175 | students 1..m make one call per question of their calendars |
| SimulationFacts.StudyEventCount | nsfStudy2/simulateStudy.ts:134-188 | the number of events is the sum over the 120 students of their question counts |
| SimulationFacts.SessionsUniform | nsfStudy2/simulateStudy.ts:135-181 | with `A` assignments each, the first `m` students use `A·m` sessions |
| SimulationFacts.StudentSessions | nsfStudy2/simulateStudy.ts:135-181 | question `i` of assignment `j` of student `s` is asked in session `A·(s−1) + j + 1`, in class `ClassOf(s)` |
| Tsv.Labels | nsfStudy2/generateSimulatedEvents.ts:19 | the header fields are the `keysDict` labels in declaration order |
| Tsv.Row | nsfStudy2/generateSimulatedEvents.ts:20-24 | a row has one field per key, `String(event[key])`, in the header's order |
| Tsv.Lines | nsfStudy2/generateSimulatedEvents.ts:26 | the header line, then one line per event, in input order |
| Tsv.ConvertToTSV | nsfStudy2/generateSimulatedEvents.ts:18-27 | the export starts with the header line (the full split is `Tsv.ExportLines` and `Tsv.ExportRoundTrip`) |
| Tsv.EveryKeyListed | nsfStudy2/simulateStudy.types.ts:54-83 | `keysDict` lists every event key |
| Tsv.PrintableFree | nsfStudy2/generateSimulatedEvents.ts:26 | printable text holds no tab or newline |
| Tsv.LabelPrintable | nsfStudy2/simulateStudy.types.ts:54-83 | every label is printable |
| Tsv.LabelsFree | nsfStudy2/generateSimulatedEvents.ts:19 | 28 labels, none with a tab or a newline |
| Tsv.HeaderFields | nsfStudy2/generateSimulatedEvents.ts:19-26 | the header splits on tabs into the labels |
| Tsv.NoEventsHeaderOnly | nsfStudy2/generateSimulatedEvents.ts:26 | with no events, only the header line |
| Tsv.ExportLines | nsfStudy2/generateSimulatedEvents.ts:26 | the export splits on newlines into the header and one line per event, with no trailing line |
| Tsv.RowFields | nsfStudy2/generateSimulatedEvents.ts:21-26 | an event's line splits on tabs into its 28 field values |
| Tsv.ExportRoundTrip | nsfStudy2/generateSimulatedEvents.ts:18-27 | when no value holds a tab or newline, splitting by newline and then by tab recovers the labels and each event's 28 fields |

## Left out

- **File I/O and logging.** Reading and `JSON.parse` of the JSONL file (`parseQuestions.ts:6-13`) are left out, and the loader takes the question list. Writing and console output (`generateQuestions.ts:84-101`, `generateSimulatedEvents.ts:5-16`) are left out. So is `generate.ts`.
- **Probability.** Uniformity of Fisher–Yates, the 70% correct rate and the per-student uniqueness test have no counterpart. Random draws are in-range parameters only.
- **Floating point and the clock.** `Date.now()` is the parameter `baseStartTime`. The float-based response times and time increments are arbitrary natural numbers supplied per (student, assignment, question). The model has no `Math.floor` of float products.
- **Engine sort.** `Array.prototype.sort` is modelled as an insertion sort by the comparator's key (`Seqs.SortBy`). It is proved stable (`Seqs.SortByStable`), as ECMA-262 requires since ES2019.
  - Where keys are distinct, `Seqs.SortedUnique` shows the result is the same for any algorithm. This covers learning days, sets with distinct numbers, and LOs.
  - Within a set, questions of equal type rank keep their input order (`Loader.GroupedStable`).
- **Sort comparators.** The models of the set sort and the LO sort compare integer keys. An unreadable set number (`NaN`) or an unknown type label has no defined comparator result, so:
  - the loader reports an unreadable set number as an error;
  - an unknown type label is ranked after the four known ones.
- **Sequence generation is a parameter of the simulation.** `simulateStudy` calls `generateSequences` and `generateStudentAssignment` for each student. `Simulation.RunStudy` instead takes the 120 calendars as its `plans` parameter, so any calendar the builder can produce is covered. `SimulationFacts.GeneratedCalendarsSimulate` connects the two stages for calendars the builder produces.
- **Calendar builder input.** `Calendar.GenerateStudentAssignment` requires `Calendar.PostposttestPresent` (every LO carries a post-posttest pair). Without it the source throws a TypeError at `generateStudentAssignment.ts:152`.
- **Event maker.** `Simulation.RunStudy` takes the event maker as a parameter. `Simulation.SimulateStudy` instantiates it with `createSimulatedEvent`.
- **Typed event keys.** The TSV export reads typed event fields. The `String(undefined)` case of a key missing from an event cannot arise, because every key is a datatype field (`Tsv.EveryKeyListed`).
- **Distinct keysDict labels.** Not stated. The labels are not distinct: "Condition Name" and "Condition Type" each occur twice, so the round trip is stated by position.
- **`teacherId` conversion.** `Object.entries` yields the teacher id as a string, and `Number(teacherId)` turns it back. The model keeps it a number throughout.
- **Error message text.** `Simulation.SimError.Message` gives the text of the two thrown errors. Only the error's data (question id, type, day; class id) is compared by the contracts.
- **Whole records through the LO shuffle.** `generateSequence.ts` shuffles whole `LearningObjective` records, and `GenerateSequencesShape` states the result by their numbers. The multiset of whole records is not stated, because the records change (condition, sequence, sets).
- Sequence.SelectRandomQuestionFromSet: states membership only. The pick is always the first element of a shuffled copy, and which element that is depends on the swap draws.
- CalendarFacts.EachObjectiveSeenEighteenTimes: stated for the `Corrected` reading of the D2 index. The as-written counts are `CalendarFacts.D1SideSeenEighteenTimes` (18 on the D1 side) and `CalendarFacts.D2SideCountsAsWritten` (30 or 6 on the D2 side), see Findings.
- Text.ParseInt: its own contract states the sign only; what it reads is stated by the lemmas `Text.ParseIntOfDigits`, `Text.ParseIntSkipsSpace`, `Text.ParseIntSign` and `Text.ParseIntHex`. Negative zero is read as 0, which no caller can tell apart.

## Findings

| source | as written | input that shows it | evidently intended | confidence | as-written member | corrected member |
|---|---|---|---|---|---|---|
| nsfStudy2/simulateStudy.ts:50-52 | an incorrect true/false answer is "false" only when `answerKey === "true"` (a string comparison) | a question of type "tof" with the boolean key `true` (the types allow a boolean key, and `generateQuestions.ts:54` writes one, though the bank labels its true/false questions "True or False"), and `isCorrect = false`: the selection is "true", equal to the key, while the outcome is INCORRECT | the incorrect answer is the opposite truth value of the key, whatever its type | not executed | SimulationFacts.TrueFalseAsWrittenSubmitsKey, Simulation.GenerateSimulatedResponseAsWritten | Simulation.GenerateSimulatedResponse |
| nsfStudy2/generateStudentAssignment.ts:108-109 | day `W{w}D2` reads the D2-side LOs at position `(w-1) div 2` of the high and low groups | any balanced design: weeks 1 and 2 both read position 0, and the LOs at positions 3–5 are never read. D2-side LOs at positions 0–2 are then seen 30 times and those at 3–5 only 6 times, against the 18 of `generateStudentAssignment.test.ts:36-59` | each D2 day reads its own pair, at position `w - 1`, so each D2-side LO gets one day | not executed | CalendarFacts.D2SideCountsAsWritten, CalendarFacts.D2WeekCountsAsWritten | CalendarFacts.EachObjectiveSeenEighteenTimes, CalendarFacts.D2WeekCounts |

The as-written D2 index also contradicts the six unique LOs per condition in `simulateStudy.test.ts:117-120`.

Both readings are kept in the model, selected by `Revision`. `AsWritten` is what `Calendar.GenerateStudentAssignment` and `Simulation.SimulateStudy` compute for the source; `Corrected` holds the evidently intended properties.
