/** Multiple-choice answer normalisation, the correct-answer display, the multiple-choice matcher and
    the drag-and-drop check of the quiz (CertApp/quiz_app.py). */
module Answers {
  import opened Text

  datatype Option<T> = None | Some(value: T)

  /** The stored `answer` as the normaliser receives it: null, one value, or a list of values. */
  datatype Answer = NoAnswer | Scalar(text: string) | Items(items: seq<string>)

  /** What a check produces: a verdict with the text shown as the correct answer, or the exception
      Python raises on the way. */
  datatype Outcome = Verdict(isCorrect: bool, display: string) | IndexError | TypeError

  /** chr(65 + i) must stay below the surrogate block to be a character, which bounds the option count. */
  const MaxOptions: nat := 0xD800 - 65

  /** c is one of the first n option letters 'A', 'B', ... */
  predicate IsOptionLetter(c: char, n: nat) {
    65 <= c as int < 65 + n
  }

  /** chr(65 + i). */
  function LetterOf(i: nat): (c: char)
    requires i < MaxOptions
    ensures c as int == 65 + i
  {
    (65 + i) as char
  }

  /** _letters_map(n): the dictionary {'A': 0, 'B': 1, ...} of the first n letters, built entry by entry. */
  method LettersMap(n: nat) returns (m: map<char, nat>)
    requires n <= MaxOptions
    ensures forall c :: c in m <==> IsOptionLetter(c, n)
    ensures forall c :: c in m ==> m[c] == c as int - 65
  {
    m := map[];
    for i := 0 to n
      invariant forall c :: c in m <==> IsOptionLetter(c, i)
      invariant forall c :: c in m ==> m[c] == c as int - 65
    {
      m := m[LetterOf(i) := i];
    }
  }

  /** The index of the last option whose stripped text is s, or -1 when there is none. */
  function LastIndexOf(options: seq<string>, s: string): (i: int)
    ensures -1 <= i < |options|
    ensures i >= 0 ==> Strip(options[i]) == s
    ensures forall j :: i < j < |options| ==> Strip(options[j]) != s
  {
    if options == [] then -1
    else if Strip(options[|options| - 1]) == s then |options| - 1
    else LastIndexOf(options[..|options| - 1], s)
  }

  /** The dictionary {str(opt).strip(): chr(65 + i)} built in option order: a stripped text maps to the
      letter of the LAST option carrying it. */
  function OptionToLetter(options: seq<string>): (m: map<string, char>)
    requires |options| <= MaxOptions
    ensures forall s :: s in m <==> LastIndexOf(options, s) >= 0
    ensures forall s :: s in m ==> m[s] == LetterOf(LastIndexOf(options, s))
  {
    if options == [] then map[]
    else
      var k := |options| - 1;
      OptionToLetter(options[..k])[Strip(options[k]) := LetterOf(k)]
  }

  /** The letter one answer item contributes: the leading-letter rule, then the exact-text rule, then
      the first-word rule ("A:" / "A."); None when all three fail or the item is blank. */
  function ItemLetter(options: seq<string>, raw: string): (r: Option<char>)
    requires |options| <= MaxOptions
    ensures r.Some? ==> IsOptionLetter(r.value, |options|)
  {
    var s := Strip(raw);
    if s == [] then None
    else
      var first := UpperChar(s[0]);
      if IsOptionLetter(first, |options|) then Some(first)
      else
        var byText := OptionToLetter(options);
        if s in byText then Some(byText[s])
        else
          var token := Upper(RStripAny(FirstWord(s), ".:"));
          if |token| == 1 && IsOptionLetter(token[0], |options|) then Some(token[0]) else None
  }

  /** The set an item adds to the result. */
  function Contribution(options: seq<string>, raw: string): set<char>
    requires |options| <= MaxOptions
  {
    match ItemLetter(options, raw)
    case Some(c) => {c}
    case None => {}
  }

  /** The loop over the items, accumulating letters left to right. */
  function LettersOf(options: seq<string>, items: seq<string>): (letters: set<char>)
    requires |options| <= MaxOptions
    ensures forall c :: c in letters ==> IsOptionLetter(c, |options|)
  {
    if items == [] then {}
    else LettersOf(options, items[..|items| - 1]) + Contribution(options, items[|items| - 1])
  }

  /** normalize_mc_answer_to_letters(options, answer). */
  function NormalizedLetters(options: seq<string>, answer: Answer): set<char>
    requires |options| <= MaxOptions
  {
    match answer
    case NoAnswer => {}
    case Scalar(s) => LettersOf(options, [s])
    case Items(xs) => LettersOf(options, xs)
  }

  /** None gives no letters, a single value reads as a one-item list, and every letter names one of
      the options, so an empty option list gives no letters. */
  lemma {:induction false} NormalizedLettersShape(options: seq<string>, answer: Answer)
    requires |options| <= MaxOptions
    ensures answer.NoAnswer? ==> NormalizedLetters(options, answer) == {}
    ensures answer.Scalar? ==> NormalizedLetters(options, answer) == NormalizedLetters(options, Items([answer.text]))
    ensures forall c :: c in NormalizedLetters(options, answer) ==> IsOptionLetter(c, |options|)
    ensures options == [] ==> NormalizedLetters(options, answer) == {}
  {
  }

  /** The loop of normalize_mc_answer_to_letters: for each item the three rules are tried in order
      against the two dictionaries, the first that succeeds adding its letter and moving on. */
  method NormalizeMcAnswerToLetters(options: seq<string>, answer: Answer) returns (letters: set<char>)
    requires |options| <= MaxOptions
    ensures letters == NormalizedLetters(options, answer)
  {
    if answer.NoAnswer? {
      return {};
    }
    var items := if answer.Scalar? then [answer.text] else answer.items;
    letters := {};
    var letterToIndex := LettersMap(|options|);
    var optionToLetter := OptionToLetter(options);
    for k := 0 to |items|
      invariant letters == LettersOf(options, items[..k])
    {
      LettersOfStep(options, items, k);
      var s := Strip(items[k]);
      if s == [] {
        continue;
      }
      var first := UpperChar(s[0]);
      if first in letterToIndex {
        letters := letters + {first};
        continue;
      }
      if s in optionToLetter {
        letters := letters + {optionToLetter[s]};
        continue;
      }
      var token := Upper(RStripAny(FirstWord(s), ".:"));
      if |token| == 1 && token[0] in letterToIndex {
        letters := letters + {token[0]};
        continue;
      }
    }
    assert items[..|items|] == items;
  }

  lemma {:induction false} LettersOfStep(options: seq<string>, items: seq<string>, k: nat)
    requires |options| <= MaxOptions && k < |items|
    ensures LettersOf(options, items[..k + 1]) == LettersOf(options, items[..k]) + Contribution(options, items[k])
  {
    assert items[..k + 1][..k] == items[..k];
  }

  /** The distinct items of a list, as Python's set(items). */
  function ItemsOf(xs: seq<string>): set<string> {
    set x | x in xs
  }

  /** The letters a set of items yields: the union of what each item contributes. */
  function LettersOfSet(options: seq<string>, texts: set<string>): set<char>
    requires |options| <= MaxOptions
  {
    set x | x in texts && ItemLetter(options, x).Some? :: ItemLetter(options, x).value
  }

  /** The first-word rule never adds a letter: a one-character token left by rstrip(".:") is the item's
      first character, which the leading-letter rule has already rejected. */
  lemma {:induction false} FirstWordRuleNeverFires(options: seq<string>, s: string)
    requires s != [] && !IsSpace(s[0]) && !IsOptionLetter(UpperChar(s[0]), |options|)
    ensures var token := Upper(RStripAny(FirstWord(s), ".:"));
            !(|token| == 1 && IsOptionLetter(token[0], |options|))
  {
    FirstWordStartsLikeString(s);
    var w := FirstWord(s);
    var t := RStripAny(w, ".:");
    RStripAnyShape(w, ".:");
    if |t| == 1 {
      assert t[0] == w[0] == s[0];
      assert Upper(t)[0] == UpperChar(s[0]);
    }
  }

  /** Rule precedence: a blank item gives nothing; an item whose upper-cased first character is an
      option letter gives exactly that letter, whatever option text it spells; otherwise only an exact
      (stripped) option text gives a letter, that of the last option carrying that text; nothing else does. */
  lemma {:induction false} ItemLetterRules(options: seq<string>, raw: string)
    requires |options| <= MaxOptions
    ensures Strip(raw) == [] ==> ItemLetter(options, raw) == None
    ensures Strip(raw) != [] && IsOptionLetter(UpperChar(Strip(raw)[0]), |options|) ==>
              ItemLetter(options, raw) == Some(UpperChar(Strip(raw)[0]))
    ensures Strip(raw) != [] && !IsOptionLetter(UpperChar(Strip(raw)[0]), |options|) ==>
              ItemLetter(options, raw)
              == if LastIndexOf(options, Strip(raw)) >= 0 then Some(LetterOf(LastIndexOf(options, Strip(raw)))) else None
  {
    var s := Strip(raw);
    StripShape(raw);
    if s != [] && !IsOptionLetter(UpperChar(s[0]), |options|) {
      FirstWordRuleNeverFires(options, s);
    }
  }

  /** The result is the union of the items' contributions, so it depends only on which items occur. */
  lemma {:induction false} LettersOfIsUnion(options: seq<string>, xs: seq<string>)
    requires |options| <= MaxOptions
    ensures LettersOf(options, xs) == LettersOfSet(options, ItemsOf(xs))
  {
    if xs != [] {
      var k := |xs| - 1;
      LettersOfIsUnion(options, xs[..k]);
      assert xs == xs[..k] + [xs[k]];
      assert ItemsOf(xs) == ItemsOf(xs[..k]) + {xs[k]};
      var lhs := LettersOf(options, xs);
      var rhs := LettersOfSet(options, ItemsOf(xs));
      forall c | c in rhs ensures c in lhs {
        var x :| x in ItemsOf(xs) && ItemLetter(options, x).Some? && ItemLetter(options, x).value == c;
        if x != xs[k] {
          assert c in LettersOfSet(options, ItemsOf(xs[..k]));
        }
      }
    }
  }

  /** Item order and repetition do not matter: two answer lists with the same items normalise alike. */
  lemma {:induction false} LettersOrderIndependent(options: seq<string>, xs: seq<string>, ys: seq<string>)
    requires |options| <= MaxOptions
    requires ItemsOf(xs) == ItemsOf(ys)
    ensures LettersOf(options, xs) == LettersOf(options, ys)
  {
    LettersOfIsUnion(options, xs);
    LettersOfIsUnion(options, ys);
  }

  /** A blank or whitespace-only item adds nothing, wherever it stands in the list. */
  lemma {:induction false} BlankItemAddsNothing(options: seq<string>, xs: seq<string>, ys: seq<string>, blank: string)
    requires |options| <= MaxOptions
    requires forall i :: 0 <= i < |blank| ==> IsSpace(blank[i])
    ensures LettersOf(options, xs + [blank] + ys) == LettersOf(options, xs + ys)
  {
    LettersOfIsUnion(options, xs + [blank] + ys);
    LettersOfIsUnion(options, xs + ys);
    assert ItemsOf(xs + [blank] + ys) == ItemsOf(xs + ys) + {blank};
    StripShape(blank);
    assert ItemLetter(options, blank) == None;
  }

  // ----- format_correct_answer -----

  /** A finite non-empty set of characters has a least element. */
  lemma {:induction false} HasLeast(s: set<char>)
    requires s != {}
    ensures exists m :: m in s && forall x :: x in s ==> m <= x
  {
    var y :| y in s;
    var rest := s - {y};
    if rest == {} {
      forall x | x in s ensures y <= x {
        assert x == y || x in rest;
      }
    } else {
      HasLeast(rest);
      var m :| m in rest && forall x :: x in rest ==> m <= x;
      var least := if y < m then y else m;
      forall x | x in s ensures least <= x {
        if x != y { assert x in rest; }
      }
      assert least in s;
    }
  }

  /** sorted(letters). */
  function Ascending(letters: set<char>): seq<char>
    decreases |letters|
  {
    if letters == {} then []
    else
      HasLeast(letters);
      var m :| m in letters && forall x :: x in letters ==> m <= x;
      [m] + Ascending(letters - {m})
  }

  /** A strictly ascending listing of a set of letters.  */
  predicate ListsInOrder(r: seq<char>, letters: set<char>) {
    && |r| == |letters|
    && (forall c :: c in r <==> c in letters)
    && (forall i, j :: 0 <= i < j < |r| ==> r[i] < r[j])
  }

  /** Putting the least letter in front of an ordered listing of the others lists them all in order. */
  lemma {:induction false} ListsInOrderCons(m: char, letters: set<char>, tail: seq<char>)
    requires m in letters && forall x :: x in letters ==> m <= x
    requires ListsInOrder(tail, letters - {m})
    ensures ListsInOrder([m] + tail, letters)
  {
    var r, rest := [m] + tail, letters - {m};
    assert |rest| == |letters| - 1;
    forall c ensures c in r <==> c in letters {
      assert c in r <==> c == m || c in tail;
    }
    forall i, j | 0 <= i < j < |r| ensures r[i] < r[j] {
      assert r[j] == tail[j - 1] && r[j] in rest;
      if i > 0 { assert r[i] == tail[i - 1]; }
    }
  }

  /** sorted(letters) lists every letter once, in strictly ascending order. */
  lemma {:induction false} AscendingShape(letters: set<char>)
    ensures ListsInOrder(Ascending(letters), letters)
    decreases |letters|
  {
    if letters != {} {
      var m := Ascending(letters)[0];
      assert m in letters && forall x :: x in letters ==> m <= x;
      var rest := letters - {m};
      assert Ascending(letters) == [m] + Ascending(rest);
      AscendingShape(rest);
      ListsInOrderCons(m, letters, Ascending(rest));
    }
  }

  /** One part of the display: "L. <option text>" when L names an option, the bare letter otherwise. */
  function RenderLetter(options: seq<string>, c: char): string {
    var idx := c as int - 65;
    if 0 <= idx < |options| then [c] + ". " + options[idx] else [c]
  }

  /** The display part of each letter, in order. */
  function Rendered(options: seq<string>, cs: seq<char>): seq<string> {
    seq(|cs|, i requires 0 <= i < |cs| => RenderLetter(options, cs[i]))
  }

  lemma {:induction false} RenderedStep(options: seq<string>, cs: seq<char>, k: nat)
    requires k < |cs|
    ensures Rendered(options, cs[..k + 1]) == Rendered(options, cs[..k]) + [RenderLetter(options, cs[k])]
  {
  }

  /** format_correct_answer(options, letters). */
  function Formatted(options: seq<string>, letters: set<char>): string {
    if letters == {} then "Unknown" else Join(Rendered(options, Ascending(letters)), ", ")
  }

  /** The display reads "Unknown" exactly when there are no letters: any other display has a '.' or a
      ',' as its second character, or is a single letter. */
  lemma {:induction false} FormattedUnknownIff(options: seq<string>, letters: set<char>)
    ensures Formatted(options, letters) == "Unknown" <==> letters == {}
  {
    if letters != {} {
      AscendingShape(letters);
      var parts := Rendered(options, Ascending(letters));
      var r := Join(parts, ", ");
      assert |parts| >= 1;
      var first := parts[0];
      assert |first| == 1 || first[1] == '.';
      if |parts| == 1 {
        assert r == first;
      } else {
        assert r == first + ", " + Join(parts[1..], ", ");
        assert r[1] == (if |first| == 1 then ',' else '.');
      }
      assert r != "Unknown" by {
        if |r| >= 2 { assert r[1] != 'n'; }
      }
    }
  }

  /** The loop of format_correct_answer as written. */
  method FormatCorrectAnswer(options: seq<string>, letters: set<char>) returns (text: string)
    ensures text == Formatted(options, letters)
  {
    if letters == {} {
      return "Unknown";
    }
    var ordered := Ascending(letters);
    var parts: seq<string> := [];
    for k := 0 to |ordered|
      invariant parts == Rendered(options, ordered[..k])
    {
      RenderedStep(options, ordered, k);
      var c := ordered[k];
      var idx := c as int - 65;
      if 0 <= idx < |options| {
        parts := parts + [[c] + ". " + options[idx]];
      } else {
        parts := parts + [[c]];
      }
    }
    assert ordered[..|ordered|] == ordered;
    text := Join(parts, ", ");
  }

  // ----- is_mc_selection_correct -----

  /** options[k] with Python's indexing: a negative k counts from the end; outside both ranges it is an
      IndexError (None). */
  function PyIndex(options: seq<string>, k: int): (r: Option<string>)
    ensures r.Some? <==> -|options| <= k < |options|
    ensures 0 <= k < |options| ==> r == Some(options[k])
    ensures -|options| <= k < 0 ==> r == Some(options[|options| + k])
  {
    if 0 <= k < |options| then Some(options[k])
    else if -|options| <= k < 0 then Some(options[|options| + k])
    else None
  }

  /** Every selected letter L indexes options[ord(L) - 65] without an IndexError. */
  predicate Indexable(options: seq<string>, selected: set<char>) {
    forall c :: c in selected ==> PyIndex(options, c as int - 65).Some?
  }

  /** {options[ord(L) - 65] for L in selected}. */
  function SelectedTexts(options: seq<string>, selected: set<char>): set<string>
    requires Indexable(options, selected)
  {
    set c | c in selected :: PyIndex(options, c as int - 65).value
  }

  /** {options[ord(L) - 65] for L in selected} for a selection of option letters. */
  function TextsOfLetters(options: seq<string>, selected: set<char>): set<string>
    requires forall c :: c in selected ==> IsOptionLetter(c, |options|)
  {
    set c | c in selected && IsOptionLetter(c, |options|) :: options[c as int - 65]
  }

  /** The strings in the stored answer taken as a set (`set(correct)` or `{correct}`). */
  function AnswerTexts(answer: Answer): set<string> {
    match answer
    case NoAnswer => {}
    case Scalar(s) => {s}
    case Items(xs) => ItemsOf(xs)
  }

  /** The items re-normalised on the fallback path: str(x) for each x in the answer set (None reads "None"). */
  function FallbackItems(answer: Answer): set<string> {
    if answer.NoAnswer? then {"None"} else AnswerTexts(answer)
  }

  /** order lists each member of texts exactly once: the iteration order of a Python set. */
  predicate Enumerates(order: seq<string>, texts: set<string>) {
    (forall i, j :: 0 <= i < j < |order| ==> order[i] != order[j]) && ItemsOf(order) == texts
  }

  /** is_mc_selection_correct(options, correct, selected). Python's set iteration order, which decides
      how the raw answer texts are joined on the last fallback, is the parameter setOrder. */
  function IsMcSelectionCorrect(options: seq<string>, correct: Answer, selected: set<char>, setOrder: seq<string>): (r: Outcome)
    requires |options| <= MaxOptions
    requires Enumerates(setOrder, AnswerTexts(correct))
    ensures r.IndexError? <==> NormalizedLetters(options, correct) == {} && !Indexable(options, selected)
    ensures r.TypeError? ==> correct.NoAnswer?
    ensures r.Verdict? && r.isCorrect ==>
              !correct.NoAnswer?
              && (selected == NormalizedLetters(options, correct)
                  || (NormalizedLetters(options, correct) == {} && Indexable(options, selected)
                      && SelectedTexts(options, selected) == AnswerTexts(correct)))
  {
    var correctLetters := NormalizedLetters(options, correct);
    if correctLetters != {} then Verdict(selected == correctLetters, Formatted(options, correctLetters))
    else if !Indexable(options, selected) then IndexError
    else
      var isCorrect := !correct.NoAnswer? && SelectedTexts(options, selected) == AnswerTexts(correct);
      var tmpLetters := LettersOfSet(options, FallbackItems(correct));
      if tmpLetters != {} then Verdict(isCorrect, Formatted(options, tmpLetters))
      else if correct.NoAnswer? then TypeError
      else Verdict(isCorrect, Join(setOrder, ", "))
  }

  /** Primary path: when the stored answer normalises to some letters, the selection is correct exactly
      when it is that set, and the display lists those letters (never "Unknown"). */
  lemma {:induction false} PrimaryPathIsSetEquality(options: seq<string>, correct: Answer, selected: set<char>, setOrder: seq<string>)
    requires |options| <= MaxOptions
    requires Enumerates(setOrder, AnswerTexts(correct))
    requires NormalizedLetters(options, correct) != {}
    ensures var r := IsMcSelectionCorrect(options, correct, selected, setOrder);
            r.Verdict? && (r.isCorrect <==> selected == NormalizedLetters(options, correct))
            && r.display == Formatted(options, NormalizedLetters(options, correct)) && r.display != "Unknown"
  {
    FormattedUnknownIff(options, NormalizedLetters(options, correct));
  }

  /** Fallback path for a string answer that yields no letters: the texts of the selected options are
      compared with the answer's texts as sets, and the display is the raw texts joined by ", " (the
      re-normalisation of the same texts cannot succeed). A selection made of option letters never
      raises. */
  lemma {:induction false} FallbackComparesTexts(options: seq<string>, correct: Answer, selected: set<char>, setOrder: seq<string>)
    requires |options| <= MaxOptions
    requires Enumerates(setOrder, AnswerTexts(correct))
    requires NormalizedLetters(options, correct) == {} && !correct.NoAnswer?
    requires forall c :: c in selected ==> IsOptionLetter(c, |options|)
    ensures IsMcSelectionCorrect(options, correct, selected, setOrder)
            == Verdict(TextsOfLetters(options, selected) == AnswerTexts(correct), Join(setOrder, ", "))
  {
    var xs := if correct.Scalar? then [correct.text] else correct.items;
    assert ItemsOf(xs) == AnswerTexts(correct);
    LettersOfIsUnion(options, xs);
    assert LettersOfSet(options, FallbackItems(correct)) == {};
    assert SelectedTexts(options, selected) == TextsOfLetters(options, selected);
  }

  /** A null answer is never matched: the fallback compares against {None}, which no set of option
      texts equals; only the display may still be rendered (from the text "None") or raise. */
  lemma {:induction false} NullAnswerNeverCorrect(options: seq<string>, selected: set<char>)
    requires |options| <= MaxOptions
    ensures var r := IsMcSelectionCorrect(options, NoAnswer, selected, []);
            !(r.Verdict? && r.isCorrect)
            && (r.TypeError? <==> Indexable(options, selected) && ItemLetter(options, "None").None?)
  {
    assert ItemsOf(["None"]) == {"None"};
    LettersOfIsUnion(options, ["None"]);
  }

  // ----- drag and drop -----

  /** The expected sequence: a list answer as it stands, a single value wrapped in a one-item list. */
  function ExpectedEntries(correct: Answer): seq<string>
    requires !correct.NoAnswer?
  {
    if correct.Scalar? then [correct.text] else correct.items
  }

  /** The number of drop-down slots offered: one per expected entry (a null answer is one slot). */
  function SelectionSlots(correct: Answer): (n: nat)
    ensures !correct.NoAnswer? ==> n == |ExpectedEntries(correct)|
  {
    match correct
    case NoAnswer => 1
    case Scalar(_) => 1
    case Items(xs) => |xs|
  }

  /** The drag-and-drop submit check: `selected == expected`, with ", ".join(expected) as the display;
      for a null answer the comparison fails and the join raises. */
  function DragAndDropCheck(correct: Answer, selected: seq<string>): (r: Outcome)
    ensures r.TypeError? <==> correct.NoAnswer?
    ensures !r.IndexError?
    ensures r.Verdict? && r.isCorrect ==> |selected| == SelectionSlots(correct)
  {
    if correct.NoAnswer? then TypeError
    else
      var expected := ExpectedEntries(correct);
      Verdict(selected == expected, Join(expected, ", "))
  }

  /** The check is positional equality of whole entries: same length as the slots and the same string
      at every position; no entry is ever split (on '|' or anything else). */
  lemma {:induction false} DragAndDropIsPositional(correct: Answer, selected: seq<string>)
    requires !correct.NoAnswer?
    ensures var r := DragAndDropCheck(correct, selected);
            r.Verdict?
            && (r.isCorrect <==> |selected| == SelectionSlots(correct)
                                 && forall i :: 0 <= i < |selected| ==> selected[i] == ExpectedEntries(correct)[i])
  {
    var e := ExpectedEntries(correct);
    if |selected| == |e| && forall i :: 0 <= i < |selected| ==> selected[i] == e[i] {
      assert selected == e;
    }
  }

  /** Drag-and-drop order matters and an entry holding '|' is one entry. */
  lemma DragAndDropExamples()
    ensures DragAndDropCheck(Items(["Step1", "Step2"]), ["Step1", "Step2"]).isCorrect
    ensures !DragAndDropCheck(Items(["Step1", "Step2"]), ["Step2", "Step1"]).isCorrect
    ensures DragAndDropCheck(Items(["a|b"]), ["a|b"]).isCorrect
    ensures !DragAndDropCheck(Items(["a|b"]), ["a", "b"]).isCorrect
  {
  }

  // ----- worked examples -----

  /** With options Alpha and Beta, "Alpha", "A:" and "A" all mean A; null and "zzz" mean nothing. */
  lemma NormalizerExamples()
    ensures NormalizedLetters(["Alpha", "Beta"], Scalar("Alpha")) == {'A'}
    ensures NormalizedLetters(["Alpha", "Beta"], Scalar("A:")) == {'A'}
    ensures NormalizedLetters(["Alpha", "Beta"], Scalar("A")) == {'A'}
    ensures NormalizedLetters(["Alpha", "Beta"], NoAnswer) == {}
    ensures NormalizedLetters(["Alpha", "Beta"], Scalar("zzz")) == {}
  {
    var opts := ["Alpha", "Beta"];
    assert Strip("Alpha") == "Alpha";
    assert Strip("A:") == "A:";
    assert Strip("A") == "A";
    assert Strip("zzz") == "zzz";
    assert Strip("Beta") == "Beta";
    assert OptionToLetter(opts) == map["Alpha" := 'A', "Beta" := 'B'];
    FirstWordRuleNeverFires(opts, "zzz");
  }

  /** Options Foo, Bar, Baz with answer "B": selecting B is right, selecting A is wrong, and either way
      the display is "B. Bar". */
  lemma MatcherExamples()
    ensures IsMcSelectionCorrect(["Foo", "Bar", "Baz"], Scalar("B"), {'B'}, ["B"]) == Verdict(true, "B. Bar")
    ensures IsMcSelectionCorrect(["Foo", "Bar", "Baz"], Scalar("B"), {'A'}, ["B"]) == Verdict(false, "B. Bar")
  {
    assert Strip("B") == "B";
    assert NormalizedLetters(["Foo", "Bar", "Baz"], Scalar("B")) == {'B'};
    assert Ascending({'B'}) == ['B'];
  }

  /** Options Foo and Bar with the answer "Qux", which no rule resolves: the option texts are compared
      and the raw answer is shown. */
  lemma FallbackExample()
    ensures IsMcSelectionCorrect(["Foo", "Bar"], Scalar("Qux"), {'A'}, ["Qux"]) == Verdict(false, "Qux")
  {
    var opts := ["Foo", "Bar"];
    assert NormalizedLetters(opts, Scalar("Qux")) == {} by {
      assert Strip("Qux") == "Qux";
      assert Strip("Foo") == "Foo" && Strip("Bar") == "Bar";
      assert LastIndexOf(opts, "Qux") == -1;
      ItemLetterRules(opts, "Qux");
      assert LettersOf(opts, ["Qux"]) == LettersOf(opts, []) + Contribution(opts, "Qux");
    }
    assert TextsOfLetters(opts, {'A'}) == {"Foo"};
    FallbackComparesTexts(opts, Scalar("Qux"), {'A'}, ["Qux"]);
  }


}
