# SC-200 quiz core, modelled in Dafny

StudyApp's certification quiz (`CertApp/quiz_app.py`, `CertApp/main.py`) reads a bank of questions
grouped by topic. It asks a session of them and checks each answer. Between sessions it remembers which
questions were mastered and which were missed. This project models the part of that program that decides
things and proves properties of it:

- **Multiple-choice normaliser** (`normalize_mc_answer_to_letters`, module `Answers`). A stored answer
  may be a letter, a letter with punctuation, the text of an option, or a list of these. The normaliser
  turns it into a set of option letters by three rules tried in order, and the model proves how those
  rules interact.
- **Display and matchers** (`format_correct_answer`, `is_mc_selection_correct` and the drag-and-drop
  check, module `Answers`). The display lists letters in order or reads "Unknown". The matcher works by
  set equality on letters, with a fallback that compares option texts. The drag-and-drop check is
  positional equality of whole entries. Python's exceptions on the way (`IndexError`, `TypeError`) are
  outcomes of their own.
- **Session bookkeeping** (module `Session`):
  - the pool built by `run_quiz`: missed questions first, then the shuffled fresh ones, truncated to
    the requested count;
  - the mastered and missed lists;
  - the counters of the running quiz, held by the class `Quiz`. Its methods follow `run_quiz`,
    `ask_question`, the two submit handlers, `mark_question_correct`, `next_question` and `end_quiz`.
- **Question-bank validator** (`validate_questions`, module `Validator`). It loops over a parsed bank,
  counts the questions and reports issues. The model proves the loop against a rule-by-rule
  specification.

Supporting modules:

- `Text` reads the Python string operations the normaliser uses on ASCII: `strip`, `split()[0]`,
  `rstrip(".:")`, `upper` and `", ".join`.
- `QuestionBank` holds the parsed JSON value, `dict.get` lookups and the `type` dispatch, where an
  absent type means multiple choice.

Questions are JSON values and compare by value: objects by their keys and values, as Python compares
dicts. Three inputs become
parameters, because the model does not perform them:

- what `random.shuffle` produced: any order of the fresh questions;
- the answers to the two reset prompts;
- the iteration order of a Python set, where it decides the order of joined text.

Three behaviours of the code are easy to misread, and the model states each as the code has it:

- **Display when both normalisations fail.** When neither the stored answer nor its re-normalised
  texts yield a letter, the display is the raw answer texts joined by ", "
  (`CertApp/quiz_app.py:245`); a null answer raises `TypeError` there.
  `Answers.FallbackComparesTexts` states this.
- **Mastered and missed lists.** Within a session, a question leaves the missed list only when it is
  answered correctly (`CertApp/quiz_app.py:116-119`); the reset prompt at the start of `run_quiz`
  (`CertApp/quiz_app.py:481-483`) empties the whole list. A question held in both lists, or asked twice because the bank holds
  it twice, can be answered wrongly after being mastered, and then stays in both. The model proves
  what the code guarantees (`Session.Quiz.MarkQuestionCorrect`): after a correct answer the question is
  mastered, and it is no longer missed if the missed list had no duplicates.
- **Name of the ordered type.** The tag that selects the ordering window is `drag_and_drop`
  (`CertApp/quiz_app.py:263`), and the model dispatches on that tag.

## Model

| member | source | states |
|---|---|---|
| `Text.LStripShape` | CertApp/quiz_app.py:192 | Left stripping removes only whitespace, keeps a suffix of the string, and leaves no leading whitespace. |
| `Text.RStripShape` | CertApp/quiz_app.py:192 | Right stripping removes only whitespace, keeps a prefix of the string, and leaves no trailing whitespace. |
| `Text.StripShape` | CertApp/quiz_app.py:192-194 | A stripped item neither starts nor ends with whitespace. It is empty (the item is skipped) exactly when the item is all whitespace. |
| `Text.RStripAnyShape` | CertApp/quiz_app.py:208 | `rstrip(".:")` keeps a prefix that does not end in `.` or `:`. |
| `Text.FirstWordStartsLikeString` | CertApp/quiz_app.py:208 | The first word of a stripped item begins with the item's first character. |
| `QuestionBank.KindOf` | CertApp/quiz_app.py:260-264 | A question without `type`, or with `type` "multiple_choice", is multiple choice. A `type` of "drag_and_drop" is drag and drop. A question is of unknown kind, carrying its tag, exactly when its `type` is present and is neither of the two. |
| `Answers.LettersMap` | CertApp/quiz_app.py:167-168 | The keys are exactly the first n letters from 'A', and each letter maps to its option index. |
| `Answers.LastIndexOf` | CertApp/quiz_app.py:189 | Reference for duplicate texts: the index of the last option whose stripped text is s, and no later option has it; -1 when no option does. |
| `Answers.OptionToLetter` | CertApp/quiz_app.py:189 | The text-to-letter dictionary holds exactly the stripped option texts. Each text maps to the letter of the last option carrying it. |
| `Answers.ItemLetter` | CertApp/quiz_app.py:191-211 | Whatever letter an item yields is one of the first len(options) letters. |
| `Answers.LettersOf` | CertApp/quiz_app.py:187-213 | Every accumulated letter names an option. |
| `Answers.NormalizedLettersShape` | CertApp/quiz_app.py:179-185 | A null answer gives no letters and a scalar reads as a one-item list. Every letter is in range, so an empty option list gives no letters. |
| `Answers.NormalizeMcAnswerToLetters` | CertApp/quiz_app.py:171-213 | The loop, with its three rules and early `continue`s, returns exactly the specified letter set. |
| `Answers.FirstWordRuleNeverFires` | CertApp/quiz_app.py:207-211 | The first-word rule can never add a letter: a one-character token is the item's first character, which the leading-letter rule already rejected. |
| `Answers.ItemLetterRules` | CertApp/quiz_app.py:192-211 | Rule precedence, per item: a blank item gives nothing; an upper-cased leading option letter wins even over another option's exact text; otherwise only exact stripped option text gives a letter, that of the last option carrying the text. |
| `Answers.LettersOfIsUnion` | CertApp/quiz_app.py:187-213 | The result is the union of what each distinct item contributes. |
| `Answers.LettersOrderIndependent` | CertApp/quiz_app.py:185-213 | Two answer lists with the same items, in any order and with any repetition, normalise to the same set. |
| `Answers.BlankItemAddsNothing` | CertApp/quiz_app.py:192-194 | Inserting a whitespace-only item anywhere leaves the result unchanged. |
| `Answers.AscendingShape` | CertApp/quiz_app.py:219 | `sorted(letters)` lists each letter once, in strictly ascending order. |
| `Answers.ListsInOrderCons` | CertApp/quiz_app.py:219 | Putting the least letter in front of an ordered listing of the others gives an ordered listing of all of them. |
| `Answers.FormattedUnknownIff` | CertApp/quiz_app.py:216-227 | The display is "Unknown" exactly when the letter set is empty. |
| `Answers.FormatCorrectAnswer` | CertApp/quiz_app.py:216-227 | The loop builds the specified display: ascending letters, "L. option" in range and a bare "L" out of range, joined by ", ". |
| `Answers.PyIndex` | CertApp/quiz_app.py:240 | Python list indexing: defined exactly for -len <= k < len. A non-negative k gives options[k] and a negative k gives options[len + k]; otherwise IndexError. |
| `Answers.PrimaryPathIsSetEquality` | CertApp/quiz_app.py:234-237 | When the stored answer normalises to letters, the selection is right exactly when it equals that set. The display lists those letters and is never "Unknown". |
| `Answers.FallbackComparesTexts` | CertApp/quiz_app.py:239-246 | When no letter comes out of a non-null answer, the selected option texts are compared as a set with the answer's texts. The display is the raw texts joined by ", ". |
| `Answers.IsMcSelectionCorrect` | CertApp/quiz_app.py:230-246 | It raises IndexError exactly when the answer yields no letter and some selected letter indexes outside the options. Only a null answer raises TypeError. A selection judged right belongs to a non-null answer and is either the answer's letter set or, when that set is empty, a selection whose option texts are the answer's texts. |
| `Answers.NullAnswerNeverCorrect` | CertApp/quiz_app.py:240-245 | A null answer is never matched. Joining its display raises TypeError exactly when the selection indexes and "None" yields no letter. |
| `Answers.SelectionSlots` | CertApp/quiz_app.py:357 | One drop-down per expected entry, with a scalar answer as one entry. |
| `Answers.DragAndDropCheck` | CertApp/quiz_app.py:367-385 | The check raises TypeError exactly for a null answer and never IndexError. A right selection fills every slot. |
| `Answers.DragAndDropIsPositional` | CertApp/quiz_app.py:367-371 | Drag-and-drop is right exactly when there are as many selections as slots and each equals the expected entry at its position. |
| `Answers.DragAndDropExamples` | CertApp/quiz_app.py:367-371 | `["Step1","Step2"]` matches only in that order, and an entry holding '\|' is compared whole. |
| `Answers.NormalizerExamples` | CertApp/quiz_app.py:171-213 | With options Alpha and Beta, "Alpha", "A:" and "A" each give {A}; null and "zzz" give nothing. |
| `Answers.MatcherExamples` | CertApp/quiz_app.py:230-237 | Options Foo/Bar/Baz with answer "B": {B} is right, {A} is wrong, and both display "B. Bar". |
| `Answers.FallbackExample` | CertApp/quiz_app.py:239-246 | Options Foo/Bar with answer "Qux": selecting A is wrong, and the display is "Qux". |
| `Session.Concat` | CertApp/quiz_app.py:487 | The flattened bank holds exactly the questions of the topics. |
| `Session.KeepInBankCounts` | CertApp/quiz_app.py:488 | A stored missed question is kept, as often as stored, exactly when it is still in the bank. |
| `Session.RemainingCounts` | CertApp/quiz_app.py:489 | A bank question is fresh, as often as the bank holds it, exactly when it is neither mastered nor kept as missed. |
| `Session.SliceAsWritten` | CertApp/quiz_app.py:492-493 | As written, a non-negative count queues min(count, len) questions from the front. A negative count queues len + count of them (or none). |
| `Session.NegativeCountQueuesQuestions` | CertApp/quiz_app.py:492-493 | Asking for -1 of three questions queues two. |
| `Session.Take` | CertApp/quiz_app.py:492-493 | The corrected truncation: a prefix of length min(count, len), and none for a count of zero or less. |
| `Session.SliceMatchesTakeUnlessNegative` | CertApp/quiz_app.py:492-493 | The slice as written and the corrected truncation agree on every count that is not negative. A negative count above -len queues a non-empty prefix where the corrected one queues nothing. |
| `Session.PoolPriority` | CertApp/quiz_app.py:487-493 | The queue is a prefix of missed-then-shuffled, of length min(count, len) for a non-negative count and len + count (or none) for a negative one. Every queued question is in the bank; after the missed ones come only questions neither mastered nor missed; a mastered question is queued only if also missed. A large enough count queues every eligible question. |
| `Session.PoolExample` | CertApp/quiz_app.py:487-493 | Bank Q1..Q4 with Q2 missed and Q4 mastered, the shuffle being any order of the fresh questions, and a count of 3: Q2 comes first, then Q1 and Q3 in shuffled order, and Q4 is never queued. |
| `Session.AppendIfAbsent` | CertApp/quiz_app.py:112-113 | The question ends up in the list, nothing else is added, and a duplicate-free list stays duplicate-free. |
| `Session.FirstIndex` | CertApp/quiz_app.py:118 | The position of the first occurrence of the question. |
| `Session.RemoveFirst` | CertApp/quiz_app.py:117-118 | Exactly one occurrence of the question goes, and it is the first. The rest stay in their order, and a list without the question is left as it is. |
| `Session.RemoveFirstFromDistinct` | CertApp/quiz_app.py:116-119 | In a duplicate-free list, removal takes the question out entirely and keeps the list duplicate-free. |
| `Session.Denominator` | CertApp/quiz_app.py:408 | The score denominator is never zero: the number of questions advanced past, or 1 when none. |
| `Session.Dispatch` | CertApp/quiz_app.py:257-264 | A non-object, and only a non-object, raises AttributeError. A question without `type` or with `type` "multiple_choice" is handed to `ask_multiple_choice`, "drag_and_drop" is handed to `ask_drag_and_drop`, and exactly the unknown types are handed to neither. |
| `Session.Quiz.constructor` | CertApp/quiz_app.py:73-77 | The module globals start empty and zero, and the persisted lists are as stored. Stored lists without duplicates give a valid state. |
| `Session.Quiz.MarkQuestionCorrect` | CertApp/quiz_app.py:107-119 | The question joins the mastered list once and loses its first occurrence in the missed list. Nothing else changes, and a duplicate-free state stays duplicate-free with the question no longer missed. |
| `Session.Quiz.RecordMissed` | CertApp/quiz_app.py:313-318 | A wrong answer adds the question to the missed list unless it is already there. |
| `Session.Quiz.Submit` | CertApp/quiz_app.py:309-318 | A right answer increments the count and marks the question mastered. A wrong one records it as missed. The index does not move. |
| `Session.Quiz.SubmitMultipleChoice` | CertApp/quiz_app.py:272-318 | The matcher checks the question's own options and answer, and its verdict drives the bookkeeping; a matcher exception changes nothing. |
| `Session.Quiz.SubmitDragAndDrop` | CertApp/quiz_app.py:330-385 | The selection is checked against the question's own answer, and the positional verdict drives the bookkeeping. A null answer, whose display raises, changes nothing. |
| `Session.Quiz.EndQuiz` | CertApp/quiz_app.py:407-412 | One score record is appended: correct answers over the guarded denominator. |
| `Session.Quiz.AskQuestion` | CertApp/quiz_app.py:251-264 | Past the end of the queue the quiz ends and a record is appended. Otherwise the current question is dispatched on its type. |
| `Session.Quiz.NextQuestion` | CertApp/quiz_app.py:461-464 | The index advances by one; at the end the record counts the questions advanced past. |
| `Session.Quiz.ResetLists` | CertApp/quiz_app.py:474-485 | A yes to a reset prompt empties that list; a no keeps it. A duplicate-free state stays duplicate-free. |
| `Session.Quiz.StartSession` | CertApp/quiz_app.py:487-495 | Counters are cleared (run_quiz does this first, at lines 470-472) and the queue is the pool, cut by the slice as written. The first question is asked; an empty pool ends the session at once with 0 out of 1. |
| `Session.Quiz.RunQuiz` | CertApp/quiz_app.py:468-495 | Counters are cleared, the lists are reset or kept, and the queue is the pool, cut by the slice as written. The first question is asked; an empty pool ends the session at once with 0 out of 1. |
| `Validator.ValidateQuestions` | CertApp/main.py:36-73 | The topic loop returns the specified question count. Its issue list agrees with the specified report, entry for entry. |
| `Validator.ValidateTopic` | CertApp/main.py:44-71 | Every entry of a list topic is counted, and its issues are appended in index order, numbered from 1. |
| `Validator.CheckQuestion` | CertApp/main.py:47-71 | The checks on one entry, with their early exits, give exactly the specified issues. |
| `Validator.FlattenEmptyIff` | CertApp/main.py:40-71 | A run of entries draws no issue exactly when none of its entries does. |
| `Validator.FlattenBound` | CertApp/main.py:40-71 | When no entry draws more than a given number of issues, the run draws at most that number per entry. |
| `Validator.QuestionIssuesRules` | CertApp/main.py:47-71 | See the rules below. |
| `Validator.QuestionIssuesEmptyIff` | CertApp/main.py:47-71 | A question draws no issue exactly when it is a well-formed question. |
| `Validator.QuestionsIssuesEmptyIff` | CertApp/main.py:44-71 | A topic's questions draw no issue exactly when every one of them is well formed. |
| `Validator.TopicIssuesEmptyIff` | CertApp/main.py:40-71 | A topic draws no issue exactly when it is a list of well-formed questions. |
| `Validator.AllIssuesIsFlatten` | CertApp/main.py:40-71 | The bank's report is the per-topic reports, topic after topic, in the same fold as a topic's questions. |
| `Validator.AllIssuesEmptyIff` | CertApp/main.py:40-71 | The bank draws no issue exactly when no topic does. |
| `Validator.NoIssuesIffWellFormed` | CertApp/main.py:36-73 | The report is empty exactly when every topic is a list of well-formed questions. |
| `Validator.QuestionsIssuesBound` | CertApp/main.py:44-71 | A topic's questions draw at most two issues each. |
| `Validator.IssueCountBound` | CertApp/main.py:40-71 | The report is never longer than the number of topics plus twice the number of questions. |

`Validator.QuestionIssuesRules` states these rules for one entry:

- A non-object gets only the "not an object" issue.
- The text issue is reported exactly when the question text is missing, empty or not a string.
- The options issue is reported exactly when the options are not a non-empty list. It is then the last
  issue, and no type check follows.
- The multiple-choice issue is reported exactly when the answer normalises to no letter.
- The drag-and-drop issue is reported exactly when the answer is not a non-empty list.
- Any other type gets an unknown-type issue.
- An entry gets at most two issues.

## Left out

- The Tk windows, widgets and pop-ups, dark mode and `close_program`: these are presentation. Each window
  appears in the model only as the `Session.Presentation` value `ask_question` leads to. The submit
  handlers' selections are parameters.
- Image display through PIL and matplotlib, which runs foreign rendering code.
- Reading and writing the JSON files, and `os.path.exists` / `os.remove`. The question bank arrives
  parsed. The mastered, missed and score-history files are the fields `mastered`, `missed` and `history`
  of `Session.Quiz`. A reset empties the field.
- `datetime.now()` in `record_score`, which is clock input, and the floating-point percentage with its
  79 % pass threshold. `Session.ScoreRecord` keeps the two integers the score is computed from.
- `random.shuffle`: its result is the parameter `shuffled`, required to be a permutation of the fresh
  questions.
- The iteration order of a Python set. `Answers.IsMcSelectionCorrect` takes it as the parameter
  `setOrder`, used where the raw answer texts are joined.
- `find_default_json`, argument parsing, environment variables, globbing, exit codes and the issue
  message text in `CertApp/main.py`. An issue is a datatype value carrying what its message shows: topic,
  1-based index, option count and type value.
- Non-ASCII text. `isspace` and `upper` are read on ASCII only.
- `str()` of lists and dicts nested inside an answer or option list. In the normaliser and the
  validator, JSON numbers and booleans are carried with the text `str()` gives them.
- Numeric equality across types. Python has `1 == 1.0 == True`, so such questions or answer items are
  equal there. The model carries numbers and booleans as their `str()` text, and `Other("1")`,
  `Other("1.0")` and `Other("True")` differ.
- Answers of a shape JSON cannot produce (tuples, sets) and unhashable answer items.
- `Answers.NormalizeMcAnswerToLetters` requires at most `MaxOptions` (0xD800 - 65) options so that every
  `chr(65 + i)` is a Dafny character. Python accepts more options.
- `Answers.LettersMap` has the same bound on its size.
- `Answers.OptionToLetter` has the same bound on the option count.
- `Answers.ItemLetter` has the same bound on the option count.
- `Answers.LettersOf` has the same bound on the option count.
- `Answers.NormalizedLettersShape` has the same bound on the option count.
- `Session.Quiz.SubmitMultipleChoice` has the same bound on the option count. It also requires the
  question's options, and its answer when not null, to be strings or lists of strings. The source also
  accepts numbers and booleans there. It compares them raw with the answer on the fallback path, and
  its `", ".join` at `CertApp/quiz_app.py:245` raises `TypeError` on them; neither is modelled.
- `Session.Quiz.SubmitDragAndDrop` requires the question's answer, when not null, to be a string or a
  list of strings. For a number, the `", ".join` at `CertApp/quiz_app.py:379` would raise `TypeError`,
  which is not modelled.
- `Session.Dispatch` hands a question to its window without checking its entries. In the source, the
  window then reads `question`, `options` and `answer` with `[]`, and a missing key raises `KeyError`
  before any window opens (`CertApp/quiz_app.py:272-274`, `330-332`). The submit handlers require the
  three keys to be present.
- `Validator.ValidateQuestions` has two requirements beyond the source's: every multiple-choice question
  with a non-empty option list has textual options, at most `MaxOptions` of them, and a textual answer
  or list of textual answers. The source takes `str()` of anything.
- `Validator.ValidateTopic` has the same requirement on its questions.
- `Validator.CheckQuestion` has the same requirement on its question.
- `Session.Quiz.RunQuiz` takes the topics as lists. A topic value that is not a list makes
  `sum(topics.values(), [])` raise in the source; that path is not modelled.

## Findings

| source | as written | input that shows it | evidently intended | confidence | as-written member | corrected member |
|---|---|---|---|---|---|---|
| CertApp/quiz_app.py:492-493 | `count = min(question_count, len(combined))` then `combined[:count]`: a negative count becomes a negative slice bound, which Python counts from the end | A requested count of -1 with three eligible questions queues two of them | A count of zero or less queues no question (and the quiz ends at once) | medium, not executed | `Session.SliceAsWritten`, `Session.NegativeCountQueuesQuestions` | `Session.Take`, with `Session.SliceMatchesTakeUnlessNegative` showing the two agree on every count that is not negative (the session itself, `Session.Pool` and `Session.Quiz.RunQuiz`, runs the slice as written) |
