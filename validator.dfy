/** The question-bank validator of the command-line entry point (CertApp/main.py): it counts the
    questions of a parsed bank and lists one issue per rule a topic or question breaks. */
module Validator {
  import opened QuestionBank
  import opened Answers

  /** One reported problem; `topic[index]` in the message is the topic name and the 1-based position. */
  datatype Issue =
    | TopicNotList(topic: string)
    | NotAnObject(topic: string, index: nat)
    | InvalidQuestionText(topic: string, index: nat)
    | InvalidOptions(topic: string, index: nat)
    | McAnswerUnparseable(topic: string, index: nat, optionCount: nat)
    | DndAnswerNotList(topic: string, index: nat)
    | UnknownType(topic: string, index: nat, qtype: Json)

  // ----- what the model covers of Python's str() -----

  predicate AllTextual(items: seq<Json>) {
    forall i :: 0 <= i < |items| ==> Textual(items[i])
  }

  /** An answer the normaliser can read here: a single textual value or a list of them. */
  predicate AnswerModelled(a: Json) {
    Textual(a) || (a.List? && AllTextual(a.items))
  }

  /** A multiple-choice question with a non-empty option list has textual options, at most MaxOptions
      of them, and a readable answer; nothing is asked of any other value. */
  predicate Modelled(q: Json) {
    q.Obj? ==>
      var opts := Lookup(q.fields, "options");
      opts.List? && opts.items != [] && KindOf(q.fields).MultipleChoice? ==>
        |opts.items| <= MaxOptions && AllTextual(opts.items) && AnswerModelled(Lookup(q.fields, "answer"))
  }

  predicate TopicModelled(v: Json) {
    v.List? ==> forall i :: 0 <= i < |v.items| ==> Modelled(v.items[i])
  }

  /** The stored answer as the normaliser receives it. */
  function AnswerOf(a: Json): Answer
    requires AnswerModelled(a)
  {
    if a.Null? then NoAnswer
    else if a.List? then Items(Texts(a.items))
    else Scalar(TextOf(a))
  }

  /** `question` holds a non-empty string. */
  predicate HasText(fields: map<string, Json>) {
    var t := Lookup(fields, "question");
    t.Str? && t.s != ""
  }

  /** `options` holds a non-empty list. */
  predicate HasOptions(fields: map<string, Json>) {
    var o := Lookup(fields, "options");
    o.List? && o.items != []
  }

  /** `answer` holds a non-empty list. */
  predicate HasAnswerList(fields: map<string, Json>) {
    var a := Lookup(fields, "answer");
    a.List? && a.items != []
  }

  // ----- the issues, rule by rule -----

  /** The issue from the options and type checks, if any, for a question whose options are a
      non-empty list. */
  function KindIssues(topic: string, index: nat, fields: map<string, Json>): seq<Issue>
    requires Modelled(Obj(fields)) && HasOptions(fields)
  {
    var opts := Lookup(fields, "options").items;
    match KindOf(fields)
    case MultipleChoice =>
      if NormalizedLetters(Texts(opts), AnswerOf(Lookup(fields, "answer"))) == {}
      then [McAnswerUnparseable(topic, index, |opts|)] else []
    case DragAndDrop =>
      if HasAnswerList(fields) then [] else [DndAnswerNotList(topic, index)]
    case UnknownKind(tag) =>
      [UnknownType(topic, index, tag)]
  }

  /** The issues of question number `index` of a topic, in the order they are reported. */
  function QuestionIssues(topic: string, index: nat, q: Json): seq<Issue>
    requires Modelled(q)
  {
    if !q.Obj? then [NotAnObject(topic, index)]
    else
      var textIssue := if HasText(q.fields) then [] else [InvalidQuestionText(topic, index)];
      if !HasOptions(q.fields) then textIssue + [InvalidOptions(topic, index)]
      else textIssue + KindIssues(topic, index, q.fields)
  }

  /** The issues of a run of entries, entry after entry, the k-th entry's issues given by f(k, entry)
      with k counted from 1. */
  function Flatten<T>(xs: seq<T>, f: (nat, T) --> seq<Issue>): seq<Issue>
    requires forall i :: 0 <= i < |xs| ==> f.requires(i + 1, xs[i])
  {
    if xs == [] then []
    else Flatten(xs[..|xs| - 1], f) + f(|xs|, xs[|xs| - 1])
  }

  /** The issues of a topic's questions, numbered from 1. */
  function QuestionsIssues(topic: string, qs: seq<Json>): seq<Issue>
    requires forall i :: 0 <= i < |qs| ==> Modelled(qs[i])
  {
    Flatten(qs, (k: nat, q: Json) requires Modelled(q) => QuestionIssues(topic, k, q))
  }

  /** The issues of one topic: one for a value that is not a list, else those of its questions. */
  function TopicIssues(topic: string, v: Json): seq<Issue>
    requires TopicModelled(v)
  {
    if v.List? then QuestionsIssues(topic, v.items) else [TopicNotList(topic)]
  }

  /** The issues of the whole bank, topic after topic. */
  function AllIssues(topics: seq<Topic>): seq<Issue>
    requires forall i :: 0 <= i < |topics| ==> TopicModelled(topics[i].questions)
  {
    if topics == [] then []
    else
      var last := topics[|topics| - 1];
      AllIssues(topics[..|topics| - 1]) + TopicIssues(last.name, last.questions)
  }

  /** The number of entries of the list-valued topics, objects or not. */
  function TotalQuestions(topics: seq<Topic>): nat {
    if topics == [] then 0
    else
      var v := topics[|topics| - 1].questions;
      TotalQuestions(topics[..|topics| - 1]) + (if v.List? then |v.items| else 0)
  }

  // ----- the loop -----

  /** validate_questions on an already parsed bank (topics in the order the file lists them): the
      outer loop over the topics. */
  method ValidateQuestions(topics: seq<Topic>) returns (total: nat, issues: seq<Issue>)
    requires forall i :: 0 <= i < |topics| ==> TopicModelled(topics[i].questions)
    ensures total == TotalQuestions(topics)
    ensures |issues| == |AllIssues(topics)|
    ensures forall i :: 0 <= i < |issues| ==> issues[i] == AllIssues(topics)[i]
  {
    issues := [];
    total := 0;
    for t := 0 to |topics|
      invariant total == TotalQuestions(topics[..t])
      invariant issues == AllIssues(topics[..t])
    {
      AllIssuesStep(topics, t);
      var topic, questions := topics[t].name, topics[t].questions;
      if !questions.List? {
        issues := issues + [TopicNotList(topic)];
        continue;
      }
      var count, found := ValidateTopic(topic, questions.items);
      total := total + count;
      issues := issues + found;
    }
    assert topics[..|topics|] == topics;
  }

  /** The inner loop of validate_questions over one topic's questions, numbered from 1: every entry is
      counted, then checked. */
  method ValidateTopic(topic: string, qs: seq<Json>) returns (count: nat, found: seq<Issue>)
    requires forall i :: 0 <= i < |qs| ==> Modelled(qs[i])
    ensures count == |qs|
    ensures found == QuestionsIssues(topic, qs)
  {
    count := 0;
    found := [];
    for k := 0 to |qs|
      invariant count == k
      invariant found == QuestionsIssues(topic, qs[..k])
    {
      QuestionsIssuesStep(topic, qs, k);
      count := count + 1;
      var more := CheckQuestion(topic, k + 1, qs[k]);
      found := found + more;
    }
    assert qs[..|qs|] == qs;
  }

  /** The checks the inner loop runs on one entry, each failing rule appending its issue; the object
      and options checks end the entry's checks early (the source's `continue`s). */
  method CheckQuestion(topic: string, index: nat, q: Json) returns (found: seq<Issue>)
    requires Modelled(q)
    ensures found == QuestionIssues(topic, index, q)
  {
    if !q.Obj? {
      return [NotAnObject(topic, index)];
    }
    found := [];
    var qtext := Lookup(q.fields, "question");
    var opts := Lookup(q.fields, "options");
    var ans := Lookup(q.fields, "answer");
    var qtype := KindOf(q.fields);
    if !(qtext.Str? && qtext.s != "") {
      found := found + [InvalidQuestionText(topic, index)];
    }
    if !(opts.List? && opts.items != []) {
      found := found + [InvalidOptions(topic, index)];
      return;
    }
    if qtype.MultipleChoice? {
      var letters := NormalizeMcAnswerToLetters(Texts(opts.items), AnswerOf(ans));
      if letters == {} {
        found := found + [McAnswerUnparseable(topic, index, |opts.items|)];
      }
    } else if qtype.DragAndDrop? {
      if !(ans.List? && ans.items != []) {
        found := found + [DndAnswerNotList(topic, index)];
      }
    } else {
      found := found + [UnknownType(topic, index, qtype.tag)];
    }
  }

  lemma {:induction false} AllIssuesStep(topics: seq<Topic>, t: nat)
    requires forall i :: 0 <= i < |topics| ==> TopicModelled(topics[i].questions)
    requires t < |topics|
    ensures AllIssues(topics[..t + 1]) == AllIssues(topics[..t]) + TopicIssues(topics[t].name, topics[t].questions)
    ensures TotalQuestions(topics[..t + 1])
            == TotalQuestions(topics[..t]) + (if topics[t].questions.List? then |topics[t].questions.items| else 0)
  {
    assert topics[..t + 1][..t] == topics[..t];
  }

  lemma {:induction false} QuestionsIssuesStep(topic: string, qs: seq<Json>, k: nat)
    requires forall i :: 0 <= i < |qs| ==> Modelled(qs[i])
    requires k < |qs|
    ensures QuestionsIssues(topic, qs[..k + 1]) == QuestionsIssues(topic, qs[..k]) + QuestionIssues(topic, k + 1, qs[k])
  {
    assert qs[..k + 1][..k] == qs[..k];
  }

  /** A run of entries draws no issue exactly when no entry does. */
  lemma {:induction false} FlattenEmptyIff<T>(xs: seq<T>, f: (nat, T) --> seq<Issue>)
    requires forall i :: 0 <= i < |xs| ==> f.requires(i + 1, xs[i])
    ensures Flatten(xs, f) == [] <==> forall i :: 0 <= i < |xs| ==> f(i + 1, xs[i]) == []
  {
    if xs != [] {
      var n := |xs| - 1;
      var init := xs[..n];
      FlattenEmptyIff(init, f);
      assert forall i :: 0 <= i < n ==> init[i] == xs[i];
    }
  }

  /** A run of entries draws at most `bound` issues per entry when no entry draws more. */
  lemma {:induction false} FlattenBound<T>(xs: seq<T>, f: (nat, T) --> seq<Issue>, bound: nat)
    requires forall i :: 0 <= i < |xs| ==> f.requires(i + 1, xs[i])
    requires forall i :: 0 <= i < |xs| ==> |f(i + 1, xs[i])| <= bound
    ensures |Flatten(xs, f)| <= bound * |xs|
  {
    if xs != [] {
      var n := |xs| - 1;
      var init := xs[..n];
      forall i | 0 <= i < n ensures f.requires(i + 1, init[i]) && |f(i + 1, init[i])| <= bound {
        assert init[i] == xs[i];
      }
      FlattenBound(init, f, bound);
      assert Flatten(xs, f) == Flatten(init, f) + f(n + 1, xs[n]);
    }
  }

  // ----- what the issues say -----

  /** Each rule, read off one question: a non-object gets that single issue and nothing else; an object
      gets a text issue exactly when its question text is missing, empty or not a string; an options
      issue exactly when its options are not a non-empty list, and then no type-specific issue; a
      multiple-choice issue exactly when its answer normalises to no letter; a drag-and-drop issue
      exactly when its answer is not a non-empty list; an unknown-type issue for any other `type`.
      No question gets more than two issues. */
  lemma {:induction false} QuestionIssuesRules(topic: string, index: nat, q: Json)
    requires Modelled(q)
    ensures var r := QuestionIssues(topic, index, q);
            && |r| <= 2
            && (q.Obj? && !HasText(q.fields) ==> |r| >= 1)
            && (q.Obj? && HasText(q.fields) ==> |r| <= 1)
            && (!q.Obj? ==> r == [NotAnObject(topic, index)])
            && (q.Obj? ==> (InvalidQuestionText(topic, index) in r <==> !HasText(q.fields)))
            && (q.Obj? ==> (InvalidOptions(topic, index) in r <==> !HasOptions(q.fields)))
            && (q.Obj? && !HasOptions(q.fields) ==> r[|r| - 1] == InvalidOptions(topic, index))
            && (q.Obj? && HasOptions(q.fields) && KindOf(q.fields).MultipleChoice? ==>
                  (McAnswerUnparseable(topic, index, |Lookup(q.fields, "options").items|) in r
                   <==> NormalizedLetters(Texts(Lookup(q.fields, "options").items), AnswerOf(Lookup(q.fields, "answer"))) == {}))
            && (q.Obj? && HasOptions(q.fields) && KindOf(q.fields).DragAndDrop? ==>
                  (DndAnswerNotList(topic, index) in r <==> !HasAnswerList(q.fields)))
            && (q.Obj? && HasOptions(q.fields) && KindOf(q.fields).UnknownKind? ==>
                  UnknownType(topic, index, KindOf(q.fields).tag) in r)
  {
  }

  /** A question passes every rule. */
  predicate WellFormedQuestion(q: Json)
    requires Modelled(q)
  {
    && q.Obj?
    && HasText(q.fields)
    && HasOptions(q.fields)
    && match KindOf(q.fields)
       case MultipleChoice =>
         NormalizedLetters(Texts(Lookup(q.fields, "options").items), AnswerOf(Lookup(q.fields, "answer"))) != {}
       case DragAndDrop => HasAnswerList(q.fields)
       case UnknownKind(_) => false
  }

  /** A topic is a list of well-formed questions. */
  predicate WellFormedTopic(v: Json)
    requires TopicModelled(v)
  {
    v.List? && forall i :: 0 <= i < |v.items| ==> WellFormedQuestion(v.items[i])
  }

  lemma {:induction false} QuestionIssuesEmptyIff(topic: string, index: nat, q: Json)
    requires Modelled(q)
    ensures QuestionIssues(topic, index, q) == [] <==> WellFormedQuestion(q)
  {
  }

  lemma {:induction false} QuestionsIssuesEmptyIff(topic: string, qs: seq<Json>)
    requires forall i :: 0 <= i < |qs| ==> Modelled(qs[i])
    ensures QuestionsIssues(topic, qs) == [] <==> forall i :: 0 <= i < |qs| ==> WellFormedQuestion(qs[i])
  {
    FlattenEmptyIff(qs, (k: nat, q: Json) requires Modelled(q) => QuestionIssues(topic, k, q));
    forall i | 0 <= i < |qs| ensures QuestionIssues(topic, i + 1, qs[i]) == [] <==> WellFormedQuestion(qs[i]) {
      QuestionIssuesEmptyIff(topic, i + 1, qs[i]);
    }
  }

  lemma {:induction false} TopicIssuesEmptyIff(topic: string, v: Json)
    requires TopicModelled(v)
    ensures TopicIssues(topic, v) == [] <==> WellFormedTopic(v)
  {
    if v.List? {
      QuestionsIssuesEmptyIff(topic, v.items);
    }
  }

  /** The issues of the k-th topic entry, in the shape the fold over the bank takes. */
  function EntryIssues(k: nat, t: Topic): seq<Issue>
    requires TopicModelled(t.questions)
  {
    TopicIssues(t.name, t.questions)
  }

  /** The bank's report is the fold of the per-topic reports. */
  lemma {:induction false} AllIssuesIsFlatten(topics: seq<Topic>)
    requires forall i :: 0 <= i < |topics| ==> TopicModelled(topics[i].questions)
    ensures AllIssues(topics) == Flatten(topics, EntryIssues)
  {
    if topics != [] {
      var n := |topics| - 1;
      AllIssuesIsFlatten(topics[..n]);
    }
  }

  lemma {:induction false} AllIssuesEmptyIff(topics: seq<Topic>)
    requires forall i :: 0 <= i < |topics| ==> TopicModelled(topics[i].questions)
    ensures AllIssues(topics) == [] <==> forall i :: 0 <= i < |topics| ==> TopicIssues(topics[i].name, topics[i].questions) == []
  {
    AllIssuesIsFlatten(topics);
    FlattenEmptyIff(topics, EntryIssues);
  }

  /** The bank draws no issue at all exactly when every topic is a list of well-formed questions. */
  lemma {:induction false} NoIssuesIffWellFormed(topics: seq<Topic>)
    requires forall i :: 0 <= i < |topics| ==> TopicModelled(topics[i].questions)
    ensures AllIssues(topics) == [] <==> forall i :: 0 <= i < |topics| ==> WellFormedTopic(topics[i].questions)
  {
    AllIssuesEmptyIff(topics);
    forall i | 0 <= i < |topics| ensures TopicIssues(topics[i].name, topics[i].questions) == [] <==> WellFormedTopic(topics[i].questions) {
      TopicIssuesEmptyIff(topics[i].name, topics[i].questions);
    }
  }

  /** Every question draws at most two issues and every topic that is not a list exactly one, so the
      report is never longer than the number of topics plus twice the number of questions. */
  lemma {:induction false} IssueCountBound(topics: seq<Topic>)
    requires forall i :: 0 <= i < |topics| ==> TopicModelled(topics[i].questions)
    ensures |AllIssues(topics)| <= |topics| + 2 * TotalQuestions(topics)
  {
    if topics != [] {
      var n := |topics| - 1;
      IssueCountBound(topics[..n]);
      AllIssuesStep(topics, n);
      assert topics[..n + 1] == topics;
      var last := topics[n];
      if last.questions.List? {
        QuestionsIssuesBound(last.name, last.questions.items);
      }
    }
  }

  lemma {:induction false} QuestionsIssuesBound(topic: string, qs: seq<Json>)
    requires forall i :: 0 <= i < |qs| ==> Modelled(qs[i])
    ensures |QuestionsIssues(topic, qs)| <= 2 * |qs|
  {
    forall i | 0 <= i < |qs| ensures |QuestionIssues(topic, i + 1, qs[i])| <= 2 {
      QuestionIssuesRules(topic, i + 1, qs[i]);
    }
    FlattenBound(qs, (k: nat, q: Json) requires Modelled(q) => QuestionIssues(topic, k, q), 2);
  }
}
