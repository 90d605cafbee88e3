/** The question bank as the program holds it after `json.load`: topic name to list of question objects. */
module QuestionBank {

  /** A parsed JSON value. Objects compare as Python dicts do (by keys and values, not key order);
      Other is a number or a boolean, carrying the text Python's str() gives it ("3", "2.5", "True"). */
  datatype Json =
    | Null
    | Str(s: string)
    | List(items: seq<Json>)
    | Obj(fields: map<string, Json>)
    | Other(text: string)

  /** One entry of the bank: a topic name and the value stored under it (a list of questions when
      the file is well formed). */
  datatype Topic = Topic(name: string, questions: Json)

  /** dict.get(key): an absent key reads as None, just like a present null. */
  function Lookup(fields: map<string, Json>, key: string): Json {
    if key in fields then fields[key] else Null
  }

  /** How a question is dispatched on `type`, which defaults to multiple choice when absent. */
  datatype QuestionKind = MultipleChoice | DragAndDrop | UnknownKind(tag: Json)

  function KindOf(fields: map<string, Json>): (k: QuestionKind)
    ensures "type" !in fields ==> k == MultipleChoice
    ensures "type" in fields && fields["type"] == Str("multiple_choice") ==> k == MultipleChoice
    ensures "type" in fields && fields["type"] == Str("drag_and_drop") ==> k == DragAndDrop
    ensures "type" in fields && fields["type"] != Str("multiple_choice") && fields["type"] != Str("drag_and_drop") ==>
              k == UnknownKind(fields["type"])
    ensures k.UnknownKind? ==>
              "type" in fields && k.tag == fields["type"] && k.tag != Str("multiple_choice") && k.tag != Str("drag_and_drop")
  {
    var tag := if "type" in fields then fields["type"] else Str("multiple_choice");
    if tag == Str("multiple_choice") then MultipleChoice
    else if tag == Str("drag_and_drop") then DragAndDrop
    else UnknownKind(tag)
  }

  /** A value whose str() the model renders: a string, number, boolean or null. */
  predicate Textual(j: Json) {
    j.Str? || j.Null? || j.Other?
  }

  /** str(j) for a textual value. */
  function TextOf(j: Json): string
    requires Textual(j)
  {
    match j
    case Str(s) => s
    case Null => "None"
    case Other(t) => t
  }

  /** [str(j) for j in items]. */
  function Texts(items: seq<Json>): seq<string>
    requires forall i :: 0 <= i < |items| ==> Textual(items[i])
  {
    seq(|items|, i requires 0 <= i < |items| => TextOf(items[i]))
  }
}
