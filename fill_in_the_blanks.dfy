// The fill-in-the-blanks puzzle of components/puzzles/FillInTheBlanksPuzzle.tsx:
// one typed answer and one verdict per question; an answer is right when,
// trimmed and lower-cased, it equals the lower-cased expected answer.
module FillInTheBlanks {
  import opened Common
  import opened Content

  datatype Verdict = Correct | Incorrect

  /** `answer.trim().toLowerCase() === expected.toLowerCase()`. */
  function Grade(answer: string, expected: string): (v: Verdict)
    ensures v == Correct <==> Lower(Trim(answer)) == Lower(expected)
  {
    if Lower(Trim(answer)) == Lower(expected) then Correct else Incorrect
  }

  /** An answer equal to the expected one up to white space around it and
      ASCII letter case is graded correct. */
  lemma PaddedCaseVariantCorrect(pre: string, m: string, post: string, expected: string)
    requires AllSpace(pre) && AllSpace(post)
    requires m == [] || (!IsSpace(m[0]) && !IsSpace(m[|m| - 1]))
    requires Lower(m) == Lower(expected)
    ensures Grade(pre + m + post, expected) == Correct
  {
    TrimPadded(pre, m, post);
  }

  /** `checkAnswers`: one verdict per question, never a blank one. */
  function CheckAll(questions: seq<BlankQuestion>, answers: seq<string>): (fb: seq<Option<Verdict>>)
    requires |answers| == |questions|
    ensures |fb| == |questions|
    ensures forall i :: 0 <= i < |fb| ==> fb[i] == Some(Grade(answers[i], questions[i].answer))
  {
    seq(|questions|, i requires 0 <= i < |questions| => Some(Grade(answers[i], questions[i].answer)))
  }

  /** Only the typed answer is trimmed: an expected answer that begins or ends
      with white space can never be matched. */
  lemma {:induction false} PaddedExpectedNeverCorrect(answer: string, expected: string)
    requires expected != [] && (IsSpace(expected[0]) || IsSpace(expected[|expected| - 1]))
    ensures Grade(answer, expected) == Incorrect
  {
    var t := Trim(answer);
    TrimHasNoOuterSpace(answer);
    if |t| == |expected| {
      assert Lower(expected)[0] == LowerChar(expected[0]);
      assert Lower(t)[0] == LowerChar(t[0]);
      var last := |t| - 1;
      assert Lower(expected)[last] == LowerChar(expected[last]);
      assert Lower(t)[last] == LowerChar(t[last]);
      LowerKeepsSpace(expected[0]);
      LowerKeepsSpace(t[0]);
      LowerKeepsSpace(expected[last]);
      LowerKeepsSpace(t[last]);
    }
  }

  /** Lower-casing neither creates nor removes white space. */
  lemma LowerKeepsSpace(c: char)
    ensures IsSpace(LowerChar(c)) <==> IsSpace(c)
  {
  }

  /** A trimmed text neither begins nor ends with white space. */
  lemma TrimHasNoOuterSpace(s: string)
    ensures Trim(s) != [] ==> !IsSpace(Trim(s)[0]) && !IsSpace(Trim(s)[|Trim(s)| - 1])
  {
    var t := TrimStart(s);
    if Trim(s) != [] {
      assert Trim(s)[0] == t[0];
    }
  }

  /** Answers are compared without regard to ASCII case: the expected answer
      typed in capitals is accepted. */
  lemma {:induction false} UpperCaseAnswerCorrect(expected: string)
    requires Trim(expected) == expected
    ensures Grade(Upper(expected), expected) == Correct
  {
    var t := TrimStart(expected);
    TrimStartUpper(expected);
    TrimEndUpper(t);
    calc {
      Trim(Upper(expected));
      TrimEnd(TrimStart(Upper(expected)));
      TrimEnd(Upper(t));
      Upper(TrimEnd(t));
      Upper(expected);
    }
    LowerOfUpper(expected);
  }

  lemma LowerOfUpper(s: string)
    ensures Lower(Upper(s)) == Lower(s)
  {
    forall i | 0 <= i < |s|
      ensures Lower(Upper(s))[i] == Lower(s)[i]
    {
      assert Upper(s)[i] == UpperChar(s[i]);
    }
  }

  lemma {:induction false} TrimStartUpper(s: string)
    ensures TrimStart(Upper(s)) == Upper(TrimStart(s))
  {
    if s != [] {
      var u := Upper(s);
      assert u[0] == UpperChar(s[0]);
      UpperKeepsSpace(s[0]);
      assert u[1..] == Upper(s[1..]);
      if IsSpace(s[0]) {
        calc {
          TrimStart(u);
          TrimStart(u[1..]);
          { TrimStartUpper(s[1..]); }
          Upper(TrimStart(s[1..]));
          Upper(TrimStart(s));
        }
      }
    }
  }

  lemma {:induction false} TrimEndUpper(s: string)
    ensures TrimEnd(Upper(s)) == Upper(TrimEnd(s))
  {
    if s != [] {
      var u := Upper(s);
      var last := |s| - 1;
      assert u[last] == UpperChar(s[last]);
      UpperKeepsSpace(s[last]);
      assert u[..last] == Upper(s[..last]);
      if IsSpace(s[last]) {
        calc {
          TrimEnd(u);
          TrimEnd(u[..last]);
          { TrimEndUpper(s[..last]); }
          Upper(TrimEnd(s[..last]));
          Upper(TrimEnd(s));
        }
      }
    }
  }

  /** Upper-casing neither creates nor removes white space. */
  lemma UpperKeepsSpace(c: char)
    ensures IsSpace(UpperChar(c)) <==> IsSpace(c)
  {
  }

  class Puzzle {
    const questions: seq<BlankQuestion>
    var answers: seq<string>
    var feedback: seq<Option<Verdict>>

    ghost predicate Valid()
      reads this
    {
      |answers| == |questions| && |feedback| == |questions|
    }

    constructor (data: FillInTheBlanksData)
      ensures questions == data.questions
      ensures answers == seq(|questions|, _ => "") && feedback == seq(|questions|, _ => None)
      ensures Valid()
    {
      questions := data.questions;
      answers := seq(|data.questions|, _ => "");
      feedback := seq(|data.questions|, _ => None);
    }

    /** Typing into blank `index` replaces that answer and clears only its verdict. */
    method AnswerChange(index: nat, value: string)
      requires Valid() && index < |questions|
      modifies this
      ensures Valid()
      ensures answers == old(answers)[index := value]
      ensures feedback == old(feedback)[index := None]
    {
      answers := answers[index := value];
      feedback := feedback[index := None];
    }

    /** "Check Answers" grades every blank. */
    method CheckAnswers()
      requires Valid()
      modifies this
      ensures Valid()
      ensures feedback == CheckAll(questions, answers) && answers == old(answers)
      ensures forall i :: 0 <= i < |feedback| ==> feedback[i].Some?
    {
      feedback := CheckAll(questions, answers);
    }
  }
}
