/** One question as the card shows it: the type badge, the correct answer,
    the options editor and the image. The card's open/closed and editing
    flags, the animation and the drag handle are not modelled. */
module QuestionCard {
  import opened Wrappers
  import opened Text
  import opened Questions
  import Export
  import MockData

  /** The four question types the backend produces. */
  const KnownTypes: set<string> := {"mcq", "short", "long", "image"}

  /** `getTypeLabel`: a fixed label for each known type; any other type is
      shown as it is. */
  function TypeLabel(qtype: string): (r: string)
    ensures qtype !in KnownTypes ==> r == qtype
    ensures qtype in KnownTypes ==> r in {"MCQ", "Short Answer", "Long Answer", "Image-based"}
  {
    match qtype
    case "mcq" => "MCQ"
    case "short" => "Short Answer"
    case "long" => "Long Answer"
    case "image" => "Image-based"
    case _ => qtype
  }

  /** The card and the mock generator give the known types the same labels;
      they differ on unknown types, which the card shows unchanged and the
      generator files under "Long Answer". */
  lemma LabelsAgreeWithMock(qtype: string)
    ensures qtype in KnownTypes ==> TypeLabel(qtype) == MockData.TypeLabel(qtype)
    ensures qtype !in KnownTypes ==> MockData.TypeLabel(qtype) == "Long Answer"
  {
  }

  /** The known types have pairwise different labels. */
  lemma LabelsDistinct(a: string, b: string)
    requires a in KnownTypes && b in KnownTypes && a != b
    ensures TypeLabel(a) != TypeLabel(b)
  {
    assert "MCQ"[0] != "Short Answer"[0] && "MCQ"[0] != "Long Answer"[0] && "MCQ"[0] != "Image-based"[0];
    assert "Short Answer"[0] != "Long Answer"[0] && "Short Answer"[0] != "Image-based"[0];
    assert "Long Answer"[0] != "Image-based"[0];
  }

  /** The colour scheme's name in the badge's class string. */
  function Scheme(colour: string): string {
    "bg-" + colour + "-500/10 text-" + colour + "-500 border-" + colour + "-500/20"
  }

  /** `getTypeColor`: blue, purple, amber and green for the four known types,
      no classes for anything else. */
  function TypeColor(qtype: string): (r: string)
    ensures r == "" <==> qtype !in KnownTypes
  {
    match qtype
    case "mcq" => Scheme("blue")
    case "short" => Scheme("purple")
    case "long" => Scheme("amber")
    case "image" => Scheme("green")
    case _ => ""
  }

  /** Different known types get different colours. */
  lemma ColoursDistinct(a: string, b: string)
    requires a in KnownTypes && b in KnownTypes && a != b
    ensures TypeColor(a) != TypeColor(b)
  {
    assert TypeColor(a)[3] != TypeColor(b)[3] by {
      assert Scheme("blue")[3] == 'b';
      assert Scheme("purple")[3] == 'p';
      assert Scheme("amber")[3] == 'a';
      assert Scheme("green")[3] == 'g';
    }
  }

  // ---------------------------------------------------------------------
  // Correct answer

  /** `options?.[i]`: the option, or nothing (rendered as empty) when there
      is no option list or the index is outside it. */
  function OptionAt(options: Option<seq<string>>, i: int): (r: string)
    ensures options.Some? && 0 <= i < |options.value| ==> r == options.value[i]
    ensures options.None? || i < 0 || i >= |options.value| ==> r == ""
  {
    if options.Some? && 0 <= i < |options.value| then options.value[i] else ""
  }

  /** The "Correct Answer" line, absent only when the field is missing
      (`!== undefined` lets `null` through): an index list as letters, an
      index as the option's text, text as is, and `null` as an empty span. */
  function CorrectAnswerShown(q: Question): (r: Option<string>)
    ensures r.None? <==> q.correctAnswer.Undefined?
    ensures q.correctAnswer.Null? ==> r == Some("")
    ensures q.correctAnswer.Given? && q.correctAnswer.value.Written? ==> r == Some(q.correctAnswer.value.text)
  {
    match q.correctAnswer
    case Undefined => None
    case Null => Some("")
    case Given(Choices(ixs)) => Some(Letters(ixs))
    case Given(Choice(i)) => Some(OptionAt(q.options, i))
    case Given(Written(s)) => Some(s)
  }

  /** A question the backend sent without an answer (`null`) shows an empty
      "Correct Answer" line on the card, while the export prints "N/A" for it,
      as it does for a missing field, which the card does not show at all. */
  lemma NullAnswerShownEmpty(q: Question)
    requires !q.correctAnswer.Given?
    ensures q.correctAnswer.Null? ==> CorrectAnswerShown(q) == Some("")
    ensures q.correctAnswer.Undefined? ==> CorrectAnswerShown(q).None?
    ensures Export.AnswerText(q) == "N/A"
  {
  }

  /** For an MCQ with a single answer inside its option list, the card shows
      the option's text while the exported worksheet names it by letter, and
      the exported option line with that letter carries the same text. */
  lemma CardAndExportAgree(q: Question, i: int)
    requires q.qtype == "mcq" && q.correctAnswer == Given(Choice(i))
    requires q.options.Some? && 0 <= i < |q.options.value|
    ensures CorrectAnswerShown(q) == Some(q.options.value[i])
    ensures Export.AnswerText(q) == Letter(i)
    ensures Export.OptionLine(i, q.options.value[i]) == Export.AnswerText(q) + ". " + q.options.value[i] + "\n"
  {
  }

  /** An index list shows as letters that read back as the indices. */
  lemma ShownLettersDecode(q: Question)
    requires q.correctAnswer.Given? && q.correctAnswer.value.Choices?
    requires forall k :: 0 <= k < |q.correctAnswer.value.indices| ==> 0 <= q.correctAnswer.value.indices[k] < 26
    ensures ReadLetters(CorrectAnswerShown(q).value) == q.correctAnswer.value.indices
  {
    LettersRoundTrip(q.correctAnswer.value.indices);
  }

  // ---------------------------------------------------------------------
  // Options editor

  /** The options text box: the options one per line (empty when the
      question has none). */
  function OptionsText(options: Option<seq<string>>): string {
    if options.Some? then Join(options.value, "\n") else ""
  }

  /** Typing in the box sets the options to its lines. */
  function OptionsFromText(value: string): (r: seq<string>)
    ensures |r| > 0
  {
    Split(value, '\n')
  }

  /** What the box shows after an edit is exactly what was typed. */
  lemma EditedTextShown(value: string)
    ensures OptionsText(Some(OptionsFromText(value))) == value
  {
    JoinSplit(value, '\n');
  }

  /** A non-empty list of single-line options survives the editor unchanged;
      an empty list comes back as one empty option. */
  lemma OptionsRoundTrip(options: seq<string>)
    requires forall j :: 0 <= j < |options| ==> Free(options[j], '\n')
    ensures |options| > 0 ==> OptionsFromText(OptionsText(Some(options))) == options
    ensures |options| == 0 ==> OptionsFromText(OptionsText(Some(options))) == [""]
  {
    if |options| > 0 {
      SplitJoin(options, '\n');
    }
  }

  /** The edit form's record after typing: the text and explanation as given,
      and for an MCQ whose options box was typed in (`Some`), the box's
      lines. A box nobody typed in (`None`) leaves the question's own options,
      because `editData` starts as the question and only the box's onChange
      replaces them. The box is rendered only for MCQs. */
  function Edited(q: Question, text: string, optionsBox: Option<string>, explanation: string): (r: Question)
    ensures r.id == q.id && r.qtype == q.qtype && r.marks == q.marks && r.correctAnswer == q.correctAnswer
    ensures r.images == q.images && r.difficulty == q.difficulty && r.topicId == q.topicId
    ensures r.userId == q.userId && r.createdAt == q.createdAt
    ensures r.text == text && r.explanation == explanation
    ensures q.qtype != "mcq" || optionsBox.None? ==> r.options == q.options
    ensures q.qtype == "mcq" && optionsBox.Some? ==>
              r.options.Some? && OptionsText(r.options) == optionsBox.value
  {
    EditedTextShown(if optionsBox.Some? then optionsBox.value else "");
    q.(text := text, explanation := explanation,
       options := if q.qtype == "mcq" && optionsBox.Some? then Some(OptionsFromText(optionsBox.value)) else q.options)
  }

  /** One thing the user does to the open form: type in one of its three
      boxes, or press Cancel, which closes the form without resetting it. */
  datatype FormEvent =
    | TypeText(text: string)
    | TypeOptions(box: string)
    | TypeExplanation(explanation: string)
    | Cancel

  /** `editData` after one event on the card of a question of type `qtype`.
      The options box exists only on an MCQ's card, so elsewhere typing in it
      cannot happen and changes nothing. */
  function Step(qtype: string, form: Question, e: FormEvent): Question {
    match e
    case TypeText(t) => form.(text := t)
    case TypeOptions(b) => if qtype == "mcq" then form.(options := Some(OptionsFromText(b))) else form
    case TypeExplanation(x) => form.(explanation := x)
    case Cancel => form
  }

  /** `editData` after a run of events. The form is initialised from the
      question once, by `useState(question)`, and nothing later resets it. */
  function Run(qtype: string, form: Question, es: seq<FormEvent>): Question
    decreases |es|
  {
    if |es| == 0 then form else Step(qtype, Run(qtype, form, es[..|es| - 1]), es[|es| - 1])
  }

  /** Whether the run types in the options box. */
  predicate TypesOptions(es: seq<FormEvent>) {
    exists k :: 0 <= k < |es| && es[k].TypeOptions?
  }

  /** `handleSave`: the card's question id and the form as it stands. */
  function Save(question: Question, form: Question): (r: (string, Question))
    ensures r.0 == question.id
    ensures r.1.id == form.id && r.1.text == form.text && r.1.options == form.options
    ensures r.1.explanation == form.explanation
  {
    (question.id, form)
  }

  /** Whatever is typed, the form keeps every field other than text, options
      and explanation, and keeps the options unless an MCQ's box was typed in. */
  lemma {:induction false} RunFrames(q: Question, es: seq<FormEvent>)
    ensures var f := Run(q.qtype, q, es);
            f.id == q.id && f.qtype == q.qtype && f.marks == q.marks && f.correctAnswer == q.correctAnswer
            && f.images == q.images && f.difficulty == q.difficulty && f.topicId == q.topicId
            && f.userId == q.userId && f.createdAt == q.createdAt
    ensures q.qtype != "mcq" || !TypesOptions(es) ==> Run(q.qtype, q, es).options == q.options
    decreases |es|
  {
    if |es| > 0 {
      RunFrames(q, es[..|es| - 1]);
      if !TypesOptions(es) {
        var init := es[..|es| - 1];
        assert !TypesOptions(init) by {
          forall k | 0 <= k < |init| ensures !init[k].TypeOptions? {
            assert init[k] == es[k];
          }
        }
        assert !es[|es| - 1].TypeOptions?;
      }
    }
  }

  /** Saving a form that was only opened and cancelled, any number of times,
      sends back the question unchanged, whatever its options are. */
  lemma {:induction false} UntouchedEditIsIdentity(q: Question, es: seq<FormEvent>)
    requires forall k :: 0 <= k < |es| ==> es[k] == Cancel
    ensures Save(q, Run(q.qtype, q, es)) == (q.id, q)
    decreases |es|
  {
    if |es| > 0 {
      UntouchedEditIsIdentity(q, es[..|es| - 1]);
    }
  }

  /** Typing the text, then the options, then the explanation gives the form
      `Edited` describes; skipping the options box keeps the options. */
  lemma TypingGivesEdited(q: Question, text: string, box: string, explanation: string)
    ensures Run(q.qtype, q, [TypeText(text), TypeOptions(box), TypeExplanation(explanation)])
            == Edited(q, text, Some(box), explanation)
    ensures Run(q.qtype, q, [TypeText(text), TypeExplanation(explanation)])
            == Edited(q, text, None, explanation)
  {
    var t, o, x := TypeText(text), TypeOptions(box), TypeExplanation(explanation);
    RunSnoc(q.qtype, q, [], t);
    assert [] + [t] == [t];
    RunSnoc(q.qtype, q, [t], o);
    RunSnoc(q.qtype, q, [t, o], x);
    assert [t] + [o] == [t, o] && [t, o] + [x] == [t, o, x];
    RunSnoc(q.qtype, q, [t], x);
    assert [t] + [x] == [t, x];
  }

  /** A run extended by one event is that event applied to the run's form. */
  lemma RunSnoc(qtype: string, form: Question, es: seq<FormEvent>, e: FormEvent)
    ensures Run(qtype, form, es + [e]) == Step(qtype, Run(qtype, form, es), e)
  {
    assert (es + [e])[..|es|] == es;
  }

  /** Cancel does not reset the form: edits typed before a Cancel are still
      there when the form is reopened and saved. */
  lemma CancelKeepsEdits(qtype: string, form: Question, es: seq<FormEvent>)
    ensures Run(qtype, form, es + [Cancel]) == Run(qtype, form, es)
  {
    RunSnoc(qtype, form, es, Cancel);
  }

  /** The form is not re-read from a later question: once the card's question
      changes (after a save, say), Save still sends the form as typed, under
      the new question's id. */
  lemma SaveIgnoresLaterQuestion(first: Question, later: Question, es: seq<FormEvent>)
    ensures Save(later, Run(first.qtype, first, es)).1 == Run(first.qtype, first, es)
    ensures Save(later, Run(first.qtype, first, es)).0 == later.id
  {
  }

  // ---------------------------------------------------------------------
  // Images

  /** The thumbnail: the first image, when the list is non-empty. */
  function Thumbnail(q: Question): (r: Option<string>)
    ensures r.Some? <==> q.images.Some? && |q.images.value| > 0
    ensures r.Some? ==> r.value == q.images.value[0]
  {
    if q.images.Some? && |q.images.value| > 0 then Some(q.images.value[0]) else None
  }

  /** The full-size dialog: an image element whenever there is an image list,
      whose source is the first image (missing for an empty list). */
  function DialogImage(q: Question): (r: Option<Option<string>>)
    ensures r.Some? <==> q.images.Some?
  {
    if q.images.None? then None
    else if |q.images.value| > 0 then Some(Some(q.images.value[0]))
    else Some(None)
  }

  /** Only the first image is ever displayed, and thumbnail and dialog show
      the same one. */
  lemma OnlyFirstImageShown(q: Question)
    ensures Thumbnail(q).Some? ==> DialogImage(q) == Some(Thumbnail(q))
    ensures DialogImage(q).Some? && DialogImage(q).value.Some? ==>
              q.images.Some? && |q.images.value| > 0 && DialogImage(q).value.value == q.images.value[0]
    ensures Thumbnail(q).None? && q.images.Some? ==> DialogImage(q) == Some(None)
  {
  }
}
