/** Which option an answer to a multiple-choice item names: by index, by letter, or by its text. */
module MultipleChoice {
  import opened Base
  import Grading
  import opened QuizItems

  /** A text as a number: not all digits, digits that stand for an index, or digits no integer is read from. */
  datatype Number = NotDigits | Index(value: nat) | Unreadable

  /** How a text is read: trimmed, as a number, and with case folded. */
  datatype Reader = Reader(strip: string -> string, number: string -> Number, fold: string -> string)

  predicate TrimsBlank(r: Reader) {
    r.strip("") == "" && r.strip(" ") == "" && r.number("") == NotDigits
  }

  const PLAIN_READER :=
    Reader((s: string) => if s == " " then "" else s, (s: string) => NotDigits, (s: string) => s)

  /** Nothing and a blank both trim to nothing, and nothing is not a number. */
  type Reading = r: Reader | TrimsBlank(r) witness PLAIN_READER

  /** The option a single letter stands for. */
  function LetterIndex(text: string): Option<nat> {
    if |text| != 1 then None
    else if 'A' <= text[0] <= 'D' then Some((text[0] - 'A') as nat)
    else if 'a' <= text[0] <= 'd' then Some((text[0] - 'a') as nat)
    else None
  }

  function Folded(reading: Reading, text: string): string {
    reading.fold(reading.strip(text))
  }

  /** The first option with this folded text. */
  function FirstWithText(reading: Reading, choices: seq<string>, text: string): Option<nat> {
    if choices == [] then None
    else if Folded(reading, choices[0]) == text then Some(0)
    else
      var rest := FirstWithText(reading, choices[1..], text);
      if rest.None? then None else Some(rest.value + 1)
  }

  /** The text is all digits, but no integer is read from it. */
  predicate Raises(reading: Reading, answer: string) {
    reading.number(reading.strip(answer)).Unreadable?
  }

  /** A number is read as an index before anything else, a letter before the text of an option. */
  function NamedOption(reading: Reading, choices: seq<string>, answer: string): Option<nat>
    requires !Raises(reading, answer)
  {
    var text := reading.strip(answer);
    if reading.number(text).Index? then Some(reading.number(text).value)
    else if LetterIndex(text).Some? then LetterIndex(text)
    else FirstWithText(reading, choices, reading.fold(text))
  }

  /** One for the correct option, zero for anything else; no score when the request fails. */
  function OptionScore(item: QuizItem, reading: Reading, answer: string): Option<real> {
    if item.correctIndex.None? then Some(0.0)
    else if Raises(reading, answer) then None
    else
      var named := NamedOption(reading, item.choices, answer);
      Some(if named.Some? && named.value == item.correctIndex.value then 1.0 else 0.0)
  }

  lemma {:induction false} FirstWithTextIsFirst(reading: Reading, choices: seq<string>, text: string)
    ensures var r := FirstWithText(reading, choices, text);
            && (r.None? <==> forall i :: 0 <= i < |choices| ==> Folded(reading, choices[i]) != text)
            && (r.Some? ==>
                  && r.value < |choices| && Folded(reading, choices[r.value]) == text
                  && forall i :: 0 <= i < r.value ==> Folded(reading, choices[i]) != text)
  {
    if choices != [] && Folded(reading, choices[0]) != text {
      FirstWithTextIsFirst(reading, choices[1..], text);
      assert forall i :: 1 <= i < |choices| ==> choices[i] == choices[1..][i - 1];
    }
  }

  /** `choices.index(normalized)` over the folded choices, when there is one. */
  method FindText(reading: Reading, choices: seq<string>, text: string) returns (found: Option<nat>)
    ensures found == FirstWithText(reading, choices, text)
  {
    for i := 0 to |choices|
      invariant forall j :: 0 <= j < i ==> Folded(reading, choices[j]) != text
    {
      if Folded(reading, choices[i]) == text {
        FirstWithTextIsFirst(reading, choices, text);
        return Some(i);
      }
    }
    FirstWithTextIsFirst(reading, choices, text);
    return None;
  }

  /** The deterministic grade of an answer; none when reading the digits as an integer fails. */
  method ScoreMultipleChoice(item: QuizItem, reading: Reading, answer: string) returns (score: Option<real>)
    ensures score == OptionScore(item, reading, answer)
  {
    if item.correctIndex.None? {
      return Some(0.0);
    }
    var correct := item.correctIndex.value;
    var text := reading.strip(answer);
    var number := reading.number(text);
    if number.Unreadable? {
      return None;
    }
    if number.Index? {
      return Some(if number.value == correct then 1.0 else 0.0);
    }
    var letter := LetterIndex(text);
    if letter.Some? {
      return Some(if letter.value == correct then 1.0 else 0.0);
    }
    var found := FindText(reading, item.choices, reading.fold(text));
    return Some(if found.Some? && found.value == correct then 1.0 else 0.0);
  }

  /** No option before `i` reads like option `i`. */
  ghost predicate FirstOfItsText(reading: Reading, choices: seq<string>, i: nat)
    requires i < |choices|
  {
    forall j :: 0 <= j < i ==> Folded(reading, choices[j]) != Folded(reading, choices[i])
  }

  /**
    Submitting the text of the correct option is graded as correct exactly when that text is not read
    as another option's index or letter, and no earlier option reads the same.
   */
  lemma ExactTextScoresIff(item: QuizItem, reading: Reading)
    requires item.kind.MultipleChoice? && Shaped(item)
    ensures var correct := item.correctIndex.value;
            var answer := item.choices[correct];
            var text := reading.strip(answer);
            OptionScore(item, reading, answer) == Some(1.0) <==>
              if !reading.number(text).NotDigits? then reading.number(text) == Index(correct)
              else if LetterIndex(text).Some? then LetterIndex(text).value == correct
              else FirstOfItsText(reading, item.choices, correct)
  {
    var correct := item.correctIndex.value;
    FirstWithTextIsFirst(reading, item.choices, Folded(reading, item.choices[correct]));
  }

  /** One of four numbers is asked for; the second is correct. */
  function NumericItem(rubric: seq<Grading.Criterion>): QuizItem {
    QuizItem("item-1", ItemType.MultipleChoice, "2 + 1 = ?", ["2", "3", "4", "5"], Some(1), None, None, rubric, ["c1"],
             None, None)
  }

  /** Its correct answer, submitted as text, is read as the index of another option. */
  lemma NumericTextIsMisread(rubric: seq<Grading.Criterion>, reading: Reading)
    requires reading.strip("3") == "3" && reading.number("3") == Index(3)
    ensures Shaped(NumericItem(rubric)) && OptionScore(NumericItem(rubric), reading, "3") == Some(0.0)
  {
    assert NumericItem(rubric).choices[1] == "3";
    ExactTextScoresIff(NumericItem(rubric), reading);
  }
}
