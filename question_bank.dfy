/** The placeholder question bank (nsfStudy2/generateQuestions.ts): one question of each
    type for every (learning objective, question setNumber) pair, with identifiers of the form
    `spacing-{1000+lo}-{type}-{100+setNumber}`. */
module QuestionBank {
  import opened Wrappers
  import opened Text
  import opened StudyTypes

  /** The four question types, in the order the generator emits them. */
  datatype QType = Mcq | Tof | Fib | Sha
  {
    /** The short code used in identifiers. */
    function Code(): string
    {
      match this
      case Mcq => "mcq"
      case Tof => "tof"
      case Fib => "fib"
      case Sha => "sha"
    }

    /** `type.toUpperCase()`. */
    function Upper(): string
    {
      match this
      case Mcq => "MCQ"
      case Tof => "TOF"
      case Fib => "FIB"
      case Sha => "SHA"
    }

    /** `typeMap[type]`: the label stored in the question's `type` field. */
    function Label(): string
    {
      match this
      case Mcq => "Multiple Choice"
      case Tof => "True or False"
      case Fib => "Fill in Blank"
      case Sha => "Short Answer"
    }
  }

  const Types: seq<QType> := [Mcq, Tof, Fib, Sha]

  /** The four dash-separated fields of an identifier. */
  function IdFields(lo: nat, setNumber: nat, t: QType): seq<string>
  {
    ["spacing", NatToString(1000 + lo), t.Code(), NatToString(100 + setNumber)]
  }

  /** `spacing-${1000 + lo}-${type}-${100 + setNumber}`. */
  function PlaceholderId(lo: nat, setNumber: nat, t: QType): string
  {
    Join(IdFields(lo, setNumber, t), '-')
  }

  function LoLabel(lo: nat): string
  {
    "Learning Objective " + NatToString(lo)
  }

  function PlaceholderStem(lo: nat, setNumber: nat, t: QType): string
  {
    var body := "This is a placeholder " + t.Upper() + " question for LO" + NatToString(lo)
      + " Set" + NatToString(setNumber);
    if t == Fib then body + " with _____" else body + "?"
  }

  function McqChoices(lo: nat, setNumber: nat): seq<Choice>
  {
    var suffix := " for LO" + NatToString(lo) + " Set" + NatToString(setNumber);
    [Choice("a", "Choice A" + suffix), Choice("b", "Choice B" + suffix),
     Choice("c", "Choice C" + suffix), Choice("d", "Choice D" + suffix)]
  }

  /** `q` is the placeholder question for LO `lo`, setNumber `setNumber` and type `t`: its identifier,
      type label, stem and LO label, four choices a–d and key "a" for multiple choice,
      the boolean key `true` for true/false, the key "placeholder" otherwise, and no
      condition. */
  ghost predicate IsPlaceholder(q: Question, lo: nat, setNumber: nat, t: QType)
  {
    && q.id == PlaceholderId(lo, setNumber, t)
    && q.qtype == t.Label()
    && q.stem == PlaceholderStem(lo, setNumber, t)
    && q.lo == LoLabel(lo)
    && q.condition == None
    && (t == Mcq ==> q.choices == Some(McqChoices(lo, setNumber)) && q.answerKey == TextKey("a"))
    && (t == Tof ==> q.choices == None && q.answerKey == FlagKey(true))
    && (t != Mcq && t != Tof ==> q.choices == None && q.answerKey == TextKey("placeholder"))
  }

  /** `generatePlaceholderQuestion`: the base question first, then the overrides for
      multiple choice and for true/false. */
  method GeneratePlaceholderQuestion(lo: nat, setNumber: nat, t: QType) returns (q: Question)
    ensures IsPlaceholder(q, lo, setNumber, t)
  {
    q := Question(PlaceholderId(lo, setNumber, t), t.Label(), PlaceholderStem(lo, setNumber, t), None,
                  TextKey("placeholder"), LoLabel(lo), None);
    if t == Mcq {
      q := q.(choices := Some(McqChoices(lo, setNumber)), answerKey := TextKey("a"));
    }
    if t == Tof {
      q := q.(answerKey := FlagKey(true));
    }
  }

  /** Where `generateAllQuestions` pushes the question for (`lo`, `setNumber`, `Types[ti]`):
      LO-major, then setNumber, then type. */
  function Position(lo: nat, setNumber: nat, ti: nat): nat
    requires 1 <= lo && 1 <= setNumber
  {
    24 * (lo - 1) + 4 * (setNumber - 1) + ti
  }

  /** The 576 questions of the bank, each at its position. */
  ghost predicate IsBank(qs: seq<Question>)
  {
    && |qs| == 24 * 6 * 4
    && forall lo, setNumber, ti | 1 <= lo <= 24 && 1 <= setNumber <= 6 && 0 <= ti < 4 ::
         IsPlaceholder(qs[Position(lo, setNumber, ti)], lo, setNumber, Types[ti])
  }

  /** Every position below `p` holds the question of its (LO, set, type) triple. */
  ghost predicate FilledTo(qs: seq<Question>, p: nat)
  {
    forall lo, setNumber, ti | 1 <= lo <= 24 && 1 <= setNumber <= 6 && 0 <= ti < 4 && Position(lo, setNumber, ti) < p ::
      Position(lo, setNumber, ti) < |qs| && IsPlaceholder(qs[Position(lo, setNumber, ti)], lo, setNumber, Types[ti])
  }

  /** `generateAllQuestions`: three nested loops over LOs 1–24, sets 1–6 and the four
      types, pushing one placeholder question each time. */
  method GenerateAllQuestions() returns (qs: seq<Question>)
    ensures IsBank(qs)
  {
    qs := [];
    for lo := 1 to 25
      invariant |qs| == 24 * (lo - 1) && FilledTo(qs, |qs|)
    {
      for setNumber := 1 to 7
        invariant |qs| == 24 * (lo - 1) + 4 * (setNumber - 1) && FilledTo(qs, |qs|)
      {
        var types := [Mcq, Tof, Fib, Sha];
        for ti := 0 to 4
          invariant |qs| == Position(lo, setNumber, ti) && FilledTo(qs, |qs|)
        {
          var q := GeneratePlaceholderQuestion(lo, setNumber, types[ti]);
          FilledSnoc(qs, q, lo, setNumber, ti);
          qs := qs + [q];
        }
      }
    }
    FilledBank(qs);
  }

  // ---------------------------------------------------------------------------
  // Lemmas

  /** Pushing the question of the triple at position `|qs|` fills one more position. */
  lemma FilledSnoc(qs: seq<Question>, q: Question, lo: nat, setNumber: nat, ti: nat)
    requires 1 <= lo <= 24 && 1 <= setNumber <= 6 && ti < 4
    requires |qs| == Position(lo, setNumber, ti) && FilledTo(qs, |qs|)
    requires IsPlaceholder(q, lo, setNumber, Types[ti])
    ensures FilledTo(qs + [q], |qs| + 1)
  {
    var r := qs + [q];
    forall l, s, u | 1 <= l <= 24 && 1 <= s <= 6 && 0 <= u < 4 && Position(l, s, u) < |qs| + 1
      ensures Position(l, s, u) < |r| && IsPlaceholder(r[Position(l, s, u)], l, s, Types[u])
    {
      if Position(l, s, u) < |qs| {
        assert r[Position(l, s, u)] == qs[Position(l, s, u)];
      } else {
        PositionInjective(l, s, u, lo, setNumber, ti);
      }
    }
  }

  /** All 576 positions filled make the bank. */
  lemma FilledBank(qs: seq<Question>)
    requires |qs| == 24 * 6 * 4 && FilledTo(qs, |qs|)
    ensures IsBank(qs)
  {
    forall lo, setNumber, ti | 1 <= lo <= 24 && 1 <= setNumber <= 6 && 0 <= ti < 4
      ensures IsPlaceholder(qs[Position(lo, setNumber, ti)], lo, setNumber, Types[ti])
    {
      assert Position(lo, setNumber, ti) < |qs|;
    }
  }

  /** The identifier splits on "-" into its four fields. */
  lemma PlaceholderIdFields(lo: nat, setNumber: nat, t: QType)
    ensures Split(PlaceholderId(lo, setNumber, t), '-') == IdFields(lo, setNumber, t)
  {
    NatToStringFree(1000 + lo, '-');
    NatToStringFree(100 + setNumber, '-');
    SplitJoin(IdFields(lo, setNumber, t), '-');
  }

  /** Identifiers determine LO, set number and type: no two placeholders share an id. */
  lemma PlaceholderIdInjective(lo1: nat, setNumber1: nat, t1: QType, lo2: nat, setNumber2: nat, t2: QType)
    requires PlaceholderId(lo1, setNumber1, t1) == PlaceholderId(lo2, setNumber2, t2)
    ensures lo1 == lo2 && setNumber1 == setNumber2 && t1 == t2
  {
    PlaceholderIdFields(lo1, setNumber1, t1);
    PlaceholderIdFields(lo2, setNumber2, t2);
    var f1, f2 := IdFields(lo1, setNumber1, t1), IdFields(lo2, setNumber2, t2);
    assert f1 == f2;
    assert f1[1] == f2[1] && f1[2] == f2[2] && f1[3] == f2[3];
    NatToStringInjective(1000 + lo1, 1000 + lo2);
    NatToStringInjective(100 + setNumber1, 100 + setNumber2);
  }

  /** Different objectives have different labels. */
  lemma LoLabelInjective(a: nat, b: nat)
    requires LoLabel(a) == LoLabel(b)
    ensures a == b
  {
    var n := |"Learning Objective "|;
    assert LoLabel(a)[n..] == NatToString(a);
    assert LoLabel(b)[n..] == NatToString(b);
    NatToStringInjective(a, b);
  }

  /** Every index below 576 is the position of exactly one (LO, set, type) triple in range. */
  lemma PositionInverse(k: nat)
    requires k < 24 * 6 * 4
    ensures 1 <= k / 24 + 1 <= 24 && 1 <= (k % 24) / 4 + 1 <= 6 && k % 4 < 4
    ensures Position(k / 24 + 1, (k % 24) / 4 + 1, k % 4) == k
  {
  }

  lemma PositionInjective(lo1: nat, s1: nat, t1: nat, lo2: nat, s2: nat, t2: nat)
    requires 1 <= lo1 && 1 <= s1 <= 6 && t1 < 4
    requires 1 <= lo2 && 1 <= s2 <= 6 && t2 < 4
    requires Position(lo1, s1, t1) == Position(lo2, s2, t2)
    ensures lo1 == lo2 && s1 == s2 && t1 == t2
  {
  }

  /** The question at any index `k` of the bank is the one for LO `k div 24 + 1`,
      set `(k mod 24) div 4 + 1` and type `Types[k mod 4]`. */
  lemma BankAt(qs: seq<Question>, k: nat)
    requires IsBank(qs) && k < |qs|
    ensures IsPlaceholder(qs[k], k / 24 + 1, (k % 24) / 4 + 1, Types[k % 4])
  {
    PositionInverse(k);
  }

  /** The identifier of a triple occurs at its position and nowhere else. */
  lemma BankIdAt(qs: seq<Question>, lo: nat, setNumber: nat, ti: nat, k: nat)
    requires IsBank(qs) && 1 <= lo <= 24 && 1 <= setNumber <= 6 && ti < 4 && k < |qs|
    ensures qs[k].id == PlaceholderId(lo, setNumber, Types[ti]) <==> k == Position(lo, setNumber, ti)
  {
    PositionInverse(k);
    var l, s, u := k / 24 + 1, (k % 24) / 4 + 1, k % 4;
    assert Position(l, s, u) == k;
    assert IsPlaceholder(qs[k], l, s, Types[u]);
    if qs[k].id == PlaceholderId(lo, setNumber, Types[ti]) {
      PlaceholderIdInjective(l, s, Types[u], lo, setNumber, Types[ti]);
      assert u == ti;
    }
  }

  /** The bank holds exactly one question per (LO, set, type): the identifier of that
      triple occurs at its position and nowhere else. All 576 identifiers are distinct. */
  lemma BankUnique(qs: seq<Question>)
    requires IsBank(qs)
    ensures forall lo, setNumber, ti, k | 1 <= lo <= 24 && 1 <= setNumber <= 6 && 0 <= ti < 4 && 0 <= k < |qs| ::
              qs[k].id == PlaceholderId(lo, setNumber, Types[ti]) <==> k == Position(lo, setNumber, ti)
    ensures forall i, j | 0 <= i < j < |qs| :: qs[i].id != qs[j].id
  {
    forall lo, setNumber, ti, k | 1 <= lo <= 24 && 1 <= setNumber <= 6 && 0 <= ti < 4 && 0 <= k < |qs|
      ensures qs[k].id == PlaceholderId(lo, setNumber, Types[ti]) <==> k == Position(lo, setNumber, ti)
    {
      BankIdAt(qs, lo, setNumber, ti, k);
    }
    forall i, j | 0 <= i < j < |qs| ensures qs[i].id != qs[j].id {
      PositionInverse(i);
      var lo, setNumber, ti := i / 24 + 1, (i % 24) / 4 + 1, i % 4;
      BankAt(qs, i);
      BankIdAt(qs, lo, setNumber, ti, j);
    }
  }
}
