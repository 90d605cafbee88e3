/** Quiz session bookkeeping (CertApp/quiz_app.py): the question pool a session is built from, the
    mastered and missed lists kept across sessions, and the counters a session advances. Questions are
    compared by value, as Python compares dicts. */
module Session {
  import opened QuestionBank
  import opened Answers

  /** No question occurs twice. */
  predicate NoDuplicates(s: seq<Json>) {
    forall i, j :: 0 <= i < j < |s| ==> s[i] != s[j]
  }

  // ----- the pool built by run_quiz -----

  /** sum(topics.values(), []): all topics' questions, topic after topic. */
  function Concat(topics: seq<seq<Json>>): (all: seq<Json>)
    ensures forall q :: q in all <==> exists i :: 0 <= i < |topics| && q in topics[i]
  {
    if topics == [] then [] else topics[0] + Concat(topics[1..])
  }

  /** [q for q in missed if q in bank]. */
  function KeepInBank(missed: seq<Json>, bank: seq<Json>): seq<Json> {
    if missed == [] then []
    else (if missed[0] in bank then [missed[0]] else []) + KeepInBank(missed[1..], bank)
  }

  /** Stale missed entries are dropped, the others kept as often as they are stored. */
  lemma {:induction false} KeepInBankCounts(missed: seq<Json>, bank: seq<Json>)
    ensures forall q :: multiset(KeepInBank(missed, bank))[q] == if q in bank then multiset(missed)[q] else 0
  {
    if missed != [] {
      assert missed == [missed[0]] + missed[1..];
      KeepInBankCounts(missed[1..], bank);
    }
  }

  /** [q for q in bank if q not in mastered and q not in kept]: the fresh questions. */
  function Remaining(bank: seq<Json>, mastered: seq<Json>, kept: seq<Json>): seq<Json> {
    if bank == [] then []
    else (if bank[0] !in mastered && bank[0] !in kept then [bank[0]] else []) + Remaining(bank[1..], mastered, kept)
  }

  /** A bank question is fresh, as often as the bank holds it, exactly when it is neither mastered nor
      kept as missed. */
  lemma {:induction false} RemainingCounts(bank: seq<Json>, mastered: seq<Json>, kept: seq<Json>)
    ensures forall q :: multiset(Remaining(bank, mastered, kept))[q]
                        == if q !in mastered && q !in kept then multiset(bank)[q] else 0
  {
    if bank != [] {
      assert bank == [bank[0]] + bank[1..];
      RemainingCounts(bank[1..], mastered, kept);
    }
  }

  /** combined[:min(count, len(combined))] as written: a negative count is a negative slice bound,
      which Python counts from the end of the list. */
  function SliceAsWritten(combined: seq<Json>, count: int): (queue: seq<Json>)
    ensures count >= 0 ==> |queue| == if count < |combined| then count else |combined|
    ensures count < 0 ==> |queue| == if |combined| + count > 0 then |combined| + count else 0
    ensures queue == combined[..|queue|]
  {
    var n := if count < |combined| then count else |combined|;
    if n >= 0 then combined[..n]
    else if |combined| + n > 0 then combined[..|combined| + n]
    else []
  }

  /** A request for -1 questions out of three still queues two of them. */
  lemma NegativeCountQueuesQuestions()
    ensures |SliceAsWritten([Str("Q1"), Str("Q2"), Str("Q3")], -1)| == 2
  {
  }

  /** The evident intent of min(count, len(combined)): the first count questions, none for a count
      that is zero or negative, all of them when fewer are available. */
  function Take(combined: seq<Json>, count: int): (queue: seq<Json>)
    ensures |queue| == if count <= 0 then 0 else if count < |combined| then count else |combined|
    ensures queue == combined[..|queue|]
  {
    if count <= 0 then [] else if count < |combined| then combined[..count] else combined
  }

  /** The slice as written agrees with the intended truncation on every count that is not negative; a
      negative count above -len(combined) queues that many fewer than all instead of none. */
  lemma {:induction false} SliceMatchesTakeUnlessNegative(combined: seq<Json>, count: int)
    ensures count >= 0 ==> SliceAsWritten(combined, count) == Take(combined, count)
    ensures count < 0 ==> Take(combined, count) == []
    ensures count < 0 && |combined| + count > 0 ==>
              SliceAsWritten(combined, count) == combined[..|combined| + count] != []
  {
  }

  /** The session queue as run_quiz builds it: the missed questions still in the bank first, then the
      shuffled fresh ones, cut by the slice as written. */
  function Pool(kept: seq<Json>, shuffled: seq<Json>, count: int): seq<Json> {
    SliceAsWritten(kept + shuffled, count)
  }

  /** Missed questions come first in their stored order; every queued question is in the bank; after
      them come only questions neither mastered nor missed; a mastered question is queued only when it
      was also missed; and a large enough count queues every eligible question exactly as often as it
      is eligible. */
  lemma {:induction false} PoolPriority(bank: seq<Json>, mastered: seq<Json>, missed: seq<Json>, shuffled: seq<Json>, count: int)
    requires multiset(shuffled) == multiset(Remaining(bank, mastered, KeepInBank(missed, bank)))
    ensures var kept := KeepInBank(missed, bank);
            var queue := Pool(kept, shuffled, count);
            && (count >= 0 ==> |queue| == if count < |kept| + |shuffled| then count else |kept| + |shuffled|)
            && (count < 0 ==> |queue| == if |kept| + |shuffled| + count > 0 then |kept| + |shuffled| + count else 0)
            && queue == (kept + shuffled)[..|queue|]
            && (forall i :: 0 <= i < |queue| ==> queue[i] in bank)
            && (forall i :: |kept| <= i < |queue| ==> queue[i] !in mastered && queue[i] !in missed)
            && (forall i :: 0 <= i < |queue| && queue[i] in mastered ==> queue[i] in missed)
            && (count >= |kept| + |shuffled| ==>
                  multiset(queue) == multiset(kept) + multiset(Remaining(bank, mastered, kept)))
  {
    var kept := KeepInBank(missed, bank);
    var combined := kept + shuffled;
    var queue := Pool(kept, shuffled, count);
    forall i | 0 <= i < |queue|
      ensures queue[i] in bank
      ensures i >= |kept| ==> queue[i] !in mastered && queue[i] !in missed
      ensures queue[i] in mastered ==> queue[i] in missed
    {
      assert queue[i] == combined[i];
      EligibleAt(bank, mastered, missed, shuffled, i);
    }
    if count >= |kept| + |shuffled| {
      assert queue == combined;
    }
  }

  /** The i-th question of missed-then-shuffled is in the bank, is fresh when it comes after the kept
      ones, and is mastered only if also missed. */
  lemma {:induction false} EligibleAt(bank: seq<Json>, mastered: seq<Json>, missed: seq<Json>, shuffled: seq<Json>, i: nat)
    requires multiset(shuffled) == multiset(Remaining(bank, mastered, KeepInBank(missed, bank)))
    requires i < |KeepInBank(missed, bank)| + |shuffled|
    ensures var kept := KeepInBank(missed, bank);
            var q := (kept + shuffled)[i];
            && q in bank
            && (i >= |kept| ==> q !in mastered && q !in missed)
            && (q in mastered ==> q in missed)
  {
    var kept := KeepInBank(missed, bank);
    var rest := Remaining(bank, mastered, kept);
    KeepInBankCounts(missed, bank);
    RemainingCounts(bank, mastered, kept);
    if i < |kept| {
      var q := kept[i];
      assert (kept + shuffled)[i] == q;
      assert q in multiset(kept);
    } else {
      var q := shuffled[i - |kept|];
      assert (kept + shuffled)[i] == q;
      assert q in multiset(rest);
    }
  }

  /** In the bank Q1..Q4 with Q2 missed and Q4 mastered, Q2 is kept and Q1, Q3 are fresh. */
  lemma ExampleEligible()
    ensures var bank := [Str("Q1"), Str("Q2"), Str("Q3"), Str("Q4")];
            KeepInBank([Str("Q2")], bank) == [Str("Q2")]
            && Remaining(bank, [Str("Q4")], [Str("Q2")]) == [Str("Q1"), Str("Q3")]
  {
    var bank := [Str("Q1"), Str("Q2"), Str("Q3"), Str("Q4")];
    var mastered, kept := [Str("Q4")], [Str("Q2")];
    assert KeepInBank([Str("Q2")], bank) == kept;
    assert Remaining(bank[3..], mastered, kept) == [];
    assert Remaining(bank[2..], mastered, kept) == [Str("Q3")];
    assert Remaining(bank[1..], mastered, kept) == [Str("Q3")];
  }

  /** The bank Q1..Q4 with Q2 missed and Q4 mastered, asking for three: Q2 first, then Q1 and Q3 in the
      order the shuffle gave. */
  lemma {:induction false} PoolExample(shuffled: seq<Json>)
    requires var bank := [Str("Q1"), Str("Q2"), Str("Q3"), Str("Q4")];
             multiset(shuffled) == multiset(Remaining(bank, [Str("Q4")], KeepInBank([Str("Q2")], bank)))
    ensures var bank := [Str("Q1"), Str("Q2"), Str("Q3"), Str("Q4")];
            var queue := Pool(KeepInBank([Str("Q2")], bank), shuffled, 3);
            && |queue| == 3 && queue[0] == Str("Q2") && multiset(queue[1..]) == multiset{Str("Q1"), Str("Q3")}
            && Str("Q4") !in queue
  {
    ExampleEligible();
    ExampleQueue(shuffled);
  }

  /** Q2 kept and any order of Q1 and Q3 as the fresh questions, asking for three. */
  lemma {:induction false} ExampleQueue(shuffled: seq<Json>)
    requires multiset(shuffled) == multiset{Str("Q1"), Str("Q3")}
    ensures var queue := Pool([Str("Q2")], shuffled, 3);
            && |queue| == 3 && queue[0] == Str("Q2") && multiset(queue[1..]) == multiset{Str("Q1"), Str("Q3")}
            && Str("Q4") !in queue
  {
    assert |shuffled| == 2;
    assert Str("Q4") !in multiset(shuffled);
    var queue := Pool([Str("Q2")], shuffled, 3);
    assert queue == [Str("Q2")] + shuffled;
    assert queue[1..] == shuffled;
  }

  // ----- the mastered and missed lists -----

  /** `if q not in s: s.append(q)`: q ends up in the list, and a list without duplicates keeps none. */
  function AppendIfAbsent(s: seq<Json>, q: Json): (r: seq<Json>)
    ensures q in r && forall x :: x in r <==> x in s || x == q
    ensures q in s ==> r == s
    ensures q !in s ==> r == s + [q]
    ensures NoDuplicates(s) ==> NoDuplicates(r)
  {
    if q in s then s else s + [q]
  }

  /** s.index(q): the position of the first occurrence of q. */
  function FirstIndex(s: seq<Json>, q: Json): (i: nat)
    requires q in s
    ensures i < |s| && s[i] == q && q !in s[..i]
  {
    if s[0] == q then 0
    else
      assert s == [s[0]] + s[1..];
      1 + FirstIndex(s[1..], q)
  }

  /** `if q in s: s.remove(q)`: exactly one occurrence of q goes (the first, the others staying in
      order), and a list without q is left as it is. */
  function RemoveFirst(s: seq<Json>, q: Json): (r: seq<Json>)
    ensures multiset(r) == multiset(s) - multiset{q}
    ensures |r| == if q in s then |s| - 1 else |s|
    ensures q in s ==> r == s[..FirstIndex(s, q)] + s[FirstIndex(s, q) + 1..]
    ensures q !in s ==> r == s
  {
    if q in s then
      var i := FirstIndex(s, q);
      assert s == s[..i] + [s[i]] + s[i + 1..];
      s[..i] + s[i + 1..]
    else
      assert multiset(s)[q] == 0;
      s
  }

  /** Removing from a list without duplicates removes q entirely and keeps the list duplicate-free. */
  lemma {:induction false} RemoveFirstFromDistinct(s: seq<Json>, q: Json)
    requires NoDuplicates(s)
    ensures q !in RemoveFirst(s, q)
    ensures NoDuplicates(RemoveFirst(s, q))
  {
    if q in s {
      var i := FirstIndex(s, q);
      var r := RemoveFirst(s, q);
      assert forall a :: 0 <= a < |r| ==> r[a] == if a < i then s[a] else s[a + 1];
      forall a, b | 0 <= a < b < |r| ensures r[a] != r[b] {
        var a' := if a < i then a else a + 1;
        var b' := if b < i then b else b + 1;
        assert s[a'] != s[b'];
      }
    }
  }

  // ----- score records -----

  /** One entry of the score history: the integer part of record_score's dictionary. */
  datatype ScoreRecord = ScoreRecord(correct: nat, total: nat)

  /** end_quiz's denominator: the questions advanced past, or 1 when none were, so a score never
      divides by zero. */
  function Denominator(current: nat): (d: nat)
    ensures d >= 1
    ensures current > 0 ==> d == current
    ensures current == 0 ==> d == 1
  {
    if current > 0 then current else 1
  }

  // ----- the session -----

  /** What ask_question does with the question at the index: end the quiz past the end of the queue,
      open the window its `type` selects, open nothing for any other type, or fail on an entry that is
      not an object (`.get` raises AttributeError). */
  datatype Presentation =
    | QuizEnded
    | MultipleChoiceShown(question: Json)
    | DragAndDropShown(question: Json)
    | NothingShown(question: Json)
    | AttributeError

  function Dispatch(q: Json): (p: Presentation)
    ensures p != QuizEnded
    ensures p == AttributeError <==> !q.Obj?
    ensures q.Obj? && "type" !in q.fields ==> p == MultipleChoiceShown(q)
    ensures q.Obj? && "type" in q.fields && q.fields["type"] == Str("multiple_choice") ==> p == MultipleChoiceShown(q)
    ensures q.Obj? && "type" in q.fields && q.fields["type"] == Str("drag_and_drop") ==> p == DragAndDropShown(q)
    ensures p.NothingShown? <==> q.Obj? && KindOf(q.fields).UnknownKind?
  {
    if !q.Obj? then AttributeError
    else
      match KindOf(q.fields)
      case MultipleChoice => MultipleChoiceShown(q)
      case DragAndDrop => DragAndDropShown(q)
      case UnknownKind(_) => NothingShown(q)
  }

  // ----- what a question window reads from its question -----

  /** A list of strings as JSON. */
  function StrList(xs: seq<string>): seq<Json> {
    seq(|xs|, i requires 0 <= i < |xs| => Str(xs[i]))
  }

  /** A stored answer as JSON: null, a string, or a list of strings. */
  function AnswerJson(a: Answer): Json {
    match a
    case NoAnswer => Null
    case Scalar(s) => Str(s)
    case Items(xs) => List(StrList(xs))
  }

  /** q is an object holding `question`, `options` and `answer` (the window reads them with [], so a
      missing key raises KeyError before it opens), and correct is q's own answer. */
  predicate HoldsAnswer(q: Json, correct: Answer) {
    q.Obj? && "question" in q.fields && "options" in q.fields && "answer" in q.fields
    && q.fields["answer"] == AnswerJson(correct)
  }

  /** As HoldsAnswer, with options being q's own option strings. */
  predicate HoldsOptionsAndAnswer(q: Json, options: seq<string>, correct: Answer) {
    HoldsAnswer(q, correct) && q.fields["options"] == List(StrList(options))
  }

  /** The module-level session state and the persisted lists it loads and saves: `mastered` is
      question_memory and asked_questions.json, `missed` is wrong_questions.json, `history` is
      score_history.json. */
  class Quiz {
    var mastered: seq<Json>
    var missed: seq<Json>
    var history: seq<ScoreRecord>
    var asked: seq<Json>
    var queue: seq<Json>
    var current: nat
    var correctAnswers: nat

    /** Neither persisted question list holds a question twice. */
    ghost predicate Valid()
      reads this
    {
      NoDuplicates(mastered) && NoDuplicates(missed)
    }

    /** A fresh process: the globals at their initial values, the persisted lists as stored. */
    constructor(storedMastered: seq<Json>, storedMissed: seq<Json>, storedHistory: seq<ScoreRecord>)
      ensures mastered == storedMastered && missed == storedMissed && history == storedHistory
      ensures asked == [] && queue == [] && current == 0 && correctAnswers == 0
      ensures NoDuplicates(storedMastered) && NoDuplicates(storedMissed) ==> Valid()
    {
      mastered := storedMastered;
      missed := storedMissed;
      history := storedHistory;
      asked := [];
      queue := [];
      current := 0;
      correctAnswers := 0;
    }

    /** mark_question_correct: q joins the mastered list once and leaves the missed list (its first
        occurrence, which in a duplicate-free list is its only one). */
    method MarkQuestionCorrect(q: Json)
      modifies this
      ensures mastered == AppendIfAbsent(old(mastered), q) && missed == RemoveFirst(old(missed), q)
      ensures history == old(history) && asked == old(asked) && queue == old(queue)
      ensures current == old(current) && correctAnswers == old(correctAnswers)
      ensures q in mastered
      ensures old(Valid()) ==> Valid() && q !in missed
    {
      if q !in mastered {
        mastered := mastered + [q];
      }
      if q in missed {
        missed := RemoveFirst(missed, q);
      }
      if old(Valid()) {
        RemoveFirstFromDistinct(old(missed), q);
      }
    }

    /** The wrong-answer branch of a submit handler: q joins the missed list unless already there. */
    method RecordMissed(q: Json)
      modifies this
      ensures missed == AppendIfAbsent(old(missed), q) && q in missed
      ensures mastered == old(mastered) && history == old(history) && asked == old(asked) && queue == old(queue)
      ensures current == old(current) && correctAnswers == old(correctAnswers)
      ensures old(Valid()) ==> Valid()
    {
      if q !in missed {
        missed := missed + [q];
      }
    }

    /** A submit handler once the check has given its verdict on question q: a right answer counts and
        marks q mastered, a wrong one records q as missed. The index does not move. */
    method Submit(q: Json, isCorrect: bool)
      modifies this
      ensures isCorrect ==> correctAnswers == old(correctAnswers) + 1
                            && mastered == AppendIfAbsent(old(mastered), q) && missed == RemoveFirst(old(missed), q)
      ensures !isCorrect ==> correctAnswers == old(correctAnswers)
                             && mastered == old(mastered) && missed == AppendIfAbsent(old(missed), q)
      ensures history == old(history) && asked == old(asked) && queue == old(queue) && current == old(current)
      ensures old(Valid()) ==> Valid()
    {
      if isCorrect {
        correctAnswers := correctAnswers + 1;
        MarkQuestionCorrect(q);
      } else {
        RecordMissed(q);
      }
    }

    /** The multiple-choice submit handler of the window opened for q, checking q's own options and
        answer: the matcher's verdict drives the bookkeeping; when the matcher raises, nothing changes. */
    method SubmitMultipleChoice(q: Json, options: seq<string>, correct: Answer, selected: set<char>, setOrder: seq<string>)
      returns (outcome: Outcome)
      requires HoldsOptionsAndAnswer(q, options, correct)
      requires |options| <= MaxOptions && Enumerates(setOrder, AnswerTexts(correct))
      modifies this
      ensures outcome == IsMcSelectionCorrect(options, correct, selected, setOrder)
      ensures outcome.Verdict? && outcome.isCorrect ==>
                correctAnswers == old(correctAnswers) + 1
                && mastered == AppendIfAbsent(old(mastered), q) && missed == RemoveFirst(old(missed), q)
      ensures outcome.Verdict? && !outcome.isCorrect ==>
                correctAnswers == old(correctAnswers) && mastered == old(mastered) && missed == AppendIfAbsent(old(missed), q)
      ensures !outcome.Verdict? ==>
                correctAnswers == old(correctAnswers) && mastered == old(mastered) && missed == old(missed)
      ensures history == old(history) && asked == old(asked) && queue == old(queue) && current == old(current)
      ensures old(Valid()) ==> Valid()
    {
      outcome := IsMcSelectionCorrect(options, correct, selected, setOrder);
      if outcome.Verdict? {
        Submit(q, outcome.isCorrect);
      }
    }

    /** The drag-and-drop submit handler of the window opened for q, checking against q's own answer: a
        right sequence counts; a wrong one is recorded as missed after its display is built, so a null
        answer (whose display raises) changes nothing. */
    method SubmitDragAndDrop(q: Json, correct: Answer, selected: seq<string>) returns (outcome: Outcome)
      requires HoldsAnswer(q, correct)
      modifies this
      ensures outcome == DragAndDropCheck(correct, selected)
      ensures outcome.Verdict? && outcome.isCorrect ==>
                correctAnswers == old(correctAnswers) + 1
                && mastered == AppendIfAbsent(old(mastered), q) && missed == RemoveFirst(old(missed), q)
      ensures outcome.Verdict? && !outcome.isCorrect ==>
                correctAnswers == old(correctAnswers) && mastered == old(mastered) && missed == AppendIfAbsent(old(missed), q)
      ensures !outcome.Verdict? ==>
                correctAnswers == old(correctAnswers) && mastered == old(mastered) && missed == old(missed)
      ensures history == old(history) && asked == old(asked) && queue == old(queue) && current == old(current)
      ensures old(Valid()) ==> Valid()
    {
      outcome := DragAndDropCheck(correct, selected);
      if outcome.Verdict? {
        Submit(q, outcome.isCorrect);
      }
    }

    /** end_quiz: one score record of the correct answers over the guarded denominator. */
    method EndQuiz()
      modifies this`history
      ensures history == old(history) + [ScoreRecord(correctAnswers, Denominator(current))]
    {
      history := history + [ScoreRecord(correctAnswers, Denominator(current))];
    }

    /** ask_question: past the end of the queue the quiz ends; otherwise the question at the index is
        dispatched on its type. */
    method AskQuestion() returns (shown: Presentation)
      modifies this`history
      ensures current >= |queue| ==> shown == QuizEnded
                                      && history == old(history) + [ScoreRecord(correctAnswers, Denominator(current))]
      ensures current < |queue| ==> shown == Dispatch(queue[current]) && history == old(history)
    {
      if current >= |queue| {
        EndQuiz();
        return QuizEnded;
      }
      var q := queue[current];
      if !q.Obj? {
        return AttributeError;
      }
      var qtype := KindOf(q.fields);
      if qtype.MultipleChoice? {
        shown := MultipleChoiceShown(q);
      } else if qtype.DragAndDrop? {
        shown := DragAndDropShown(q);
      } else {
        shown := NothingShown(q);
      }
    }

    /** next_question: advance the index by one and ask. */
    method NextQuestion() returns (shown: Presentation)
      modifies this`current, this`history
      ensures current == old(current) + 1
      ensures current >= |queue| ==> shown == QuizEnded
                                      && history == old(history) + [ScoreRecord(correctAnswers, current)]
      ensures current < |queue| ==> shown == Dispatch(queue[current]) && history == old(history)
    {
      current := current + 1;
      shown := AskQuestion();
    }

    /** The two reset prompts of run_quiz: a yes empties the stored list. */
    method ResetLists(resetMastered: bool, resetMissed: bool)
      modifies this`mastered, this`missed
      ensures mastered == (if resetMastered then [] else old(mastered))
      ensures missed == (if resetMissed then [] else old(missed))
      ensures old(Valid()) ==> Valid()
    {
      if resetMastered {
        mastered := [];
      }
      if resetMissed {
        missed := [];
      }
    }

    /** The rest of run_quiz: counters cleared, the queue built from the pool, and the first question
        asked (an empty queue ends the session at once with the record 0 out of 1). */
    method StartSession(questionCount: int, topics: seq<seq<Json>>, shuffled: seq<Json>) returns (shown: Presentation)
      modifies this`asked, this`correctAnswers, this`current, this`queue, this`history
      ensures queue == Pool(KeepInBank(missed, Concat(topics)), shuffled, questionCount)
      ensures asked == queue && current == 0 && correctAnswers == 0
      ensures queue == [] ==> shown == QuizEnded && history == old(history) + [ScoreRecord(0, 1)]
      ensures queue != [] ==> shown == Dispatch(queue[0]) && history == old(history)
    {
      asked := [];
      correctAnswers := 0;
      current := 0;
      var kept := KeepInBank(missed, Concat(topics));
      queue := SliceAsWritten(kept + shuffled, questionCount);
      asked := queue;
      shown := AskQuestion();
    }

    /** run_quiz with the answers to its two reset prompts and the order random.shuffle produced, a
        permutation of the fresh questions: the lists reset or kept, then the session started. */
    method RunQuiz(questionCount: int, topics: seq<seq<Json>>, resetMastered: bool, resetMissed: bool, shuffled: seq<Json>)
      returns (shown: Presentation)
      modifies this
      requires var bank := Concat(topics);
               var m := if resetMastered then [] else mastered;
               var w := if resetMissed then [] else missed;
               multiset(shuffled) == multiset(Remaining(bank, m, KeepInBank(w, bank)))
      ensures mastered == (if resetMastered then [] else old(mastered))
      ensures missed == (if resetMissed then [] else old(missed))
      ensures queue == Pool(KeepInBank(missed, Concat(topics)), shuffled, questionCount)
      ensures asked == queue && current == 0 && correctAnswers == 0
      ensures queue == [] ==> shown == QuizEnded && history == old(history) + [ScoreRecord(0, 1)]
      ensures queue != [] ==> shown == Dispatch(queue[0]) && history == old(history)
      ensures old(Valid()) ==> Valid()
    {
      ResetLists(resetMastered, resetMissed);
      shown := StartSession(questionCount, topics, shuffled);
    }
  }
}
