/** The question record the frontend works with, and the two renderings of it
    that the export, the results panel and the question card share: the marks
    label and the total of the marks. */
module Questions {
  import opened Wrappers
  import opened Text

  /** A correct answer or a submitted answer: an option index, several option
      indices, or free text. */
  datatype Answer =
    | Choice(index: int)
    | Choices(indices: seq<int>)
    | Written(text: string)

  /** A JSON field that the record may lack (`undefined` in the frontend),
      may hold as `null`, or may hold a value. The backend always sends the
      field, as `null` when a question has no answer. */
  datatype Field<T> = Undefined | Null | Given(value: T)

  /** A question. `qtype` is one of "mcq", "short", "long", "image" when it
      comes from the backend, but nothing in the frontend enforces that. A
      fractional `marks` value is not modelled. */
  datatype Question = Question(
    id: string,
    qtype: string,
    text: string,
    options: Option<seq<string>>,
    correctAnswer: Field<Answer>,
    explanation: string,
    images: Option<seq<string>>,
    difficulty: string,
    marks: int,
    topicId: string,
    userId: string,
    createdAt: Option<string>)

  /** `${m} mark${m > 1 ? 's' : ''}`: the number, then "mark", pluralised
      exactly when the number exceeds one. */
  function MarksLabel(m: int): (r: string)
    ensures |r| >= 6
    ensures var n := IntToString(m);
            |n| + 5 <= |r| <= |n| + 6 && r[..|n|] == n && r[|n|..|n| + 5] == " mark"
  {
    IntToString(m) + " mark" + (if m > 1 then "s" else "")
  }

  /** The label ends in "s" exactly for more than one mark, and otherwise ends
      in "mark" after the number. */
  lemma MarksLabelPlural(m: int)
    ensures MarksLabel(m)[|MarksLabel(m)| - 1] == 's' <==> m > 1
    ensures m <= 1 ==> MarksLabel(m)[|MarksLabel(m)| - 5..] == " mark"
  {
    var r := MarksLabel(m);
    if m <= 1 {
      assert r == IntToString(m) + " mark";
    }
  }

  /** `questions.reduce((sum, q) => sum + q.marks, 0)`. */
  function TotalMarks(qs: seq<Question>): int {
    if |qs| == 0 then 0 else TotalMarks(qs[..|qs| - 1]) + qs[|qs| - 1].marks
  }

  /** The total of a concatenation is the sum of the totals. */
  lemma {:induction false} TotalMarksAppend(a: seq<Question>, b: seq<Question>)
    ensures TotalMarks(a + b) == TotalMarks(a) + TotalMarks(b)
    decreases |b|
  {
    if |b| == 0 {
      assert a + b == a;
    } else {
      TotalMarksAppend(a, b[..|b| - 1]);
      assert (a + b)[..|a + b| - 1] == a + b[..|b| - 1];
    }
  }
}
