/** The quiz feedback form as a state machine: the two thumb buttons, and
    submitting with its call and the state it leaves. The call's outcome is
    an input; the toasts and the parent callback are not modelled. */
module QuizFeedback {
  import opened Wrappers
  import opened Text

  datatype Thumb = ThumbsUp | ThumbsDown

  datatype Form = Form(selected: Option<Thumb>, comment: string, submitting: bool)

  const Initial: Form := Form(None, "", false)

  /** A thumb button: clicking the selected thumb clears the choice, clicking
      the other one selects it. */
  function Click(f: Form, t: Thumb): (r: Form)
    ensures r.comment == f.comment && r.submitting == f.submitting
  {
    f.(selected := if f.selected == Some(t) then None else Some(t))
  }

  /** Clicking a thumb selects it unless it was selected, and at most that
      thumb is selected afterwards; unless the other thumb was selected,
      clicking again undoes the click. */
  lemma ClickToggles(f: Form, t: Thumb)
    ensures Click(f, t).selected == Some(t) <==> f.selected != Some(t)
    ensures Click(f, t).selected.Some? ==> Click(f, t).selected == Some(t)
    ensures f.selected.None? || f.selected == Some(t) ==> Click(Click(f, t), t) == f
  {
  }

  /** What `api.submitQuizFeedback` is called with. */
  datatype FeedbackCall = FeedbackCall(worksheetId: string, feedbackType: Thumb, comment: Option<string>)

  /** `comment.trim() || undefined`. */
  function SentComment(comment: string): (r: Option<string>)
    ensures r.None? <==> forall k :: 0 <= k < |comment| ==> comment[k] in JsWhitespace
    ensures r.Some? ==> |r.value| > 0 && r.value[0] !in JsWhitespace && r.value[|r.value| - 1] !in JsWhitespace
    ensures r.Some? ==> Contains(comment, r.value)
    ensures r.Some? ==> exists a :: PaddedAt(comment, r.value, a, JsWhitespace)
  {
    TrimEmptyIff(comment, JsWhitespace);
    TrimBounds(comment, JsWhitespace);
    var t := JsTrim(comment);
    assert OccursAt(comment, t, LeadingCount(comment, JsWhitespace));
    if |t| == 0 then None else Some(t)
  }

  /** Whatever piece of the comment has no whitespace at its ends and only
      whitespace around it is exactly what is sent. */
  lemma SentCommentIsTrim(comment: string, t: string, a: int)
    requires PaddedAt(comment, t, a, JsWhitespace)
    requires |t| > 0 && t[0] !in JsWhitespace && t[|t| - 1] !in JsWhitespace
    ensures SentComment(comment) == Some(t)
  {
    assert comment[a] == t[0];
    var r := SentComment(comment);
    assert r.Some?;
    var b :| PaddedAt(comment, r.value, b, JsWhitespace);
    PaddedUnique(comment, r.value, b, t, a, JsWhitespace);
  }

  /** `handleSubmit`: without a thumb there is no call and the form stays as
      it is; otherwise the call is made, and whatever it returns the form is
      no longer submitting — cleared on success, unchanged on failure. */
  function Submit(f: Form, worksheetId: string, succeeded: bool): (r: (Option<FeedbackCall>, Form))
    ensures r.0.None? <==> f.selected.None?
    ensures r.0.None? ==> r.1 == f
    ensures r.0.Some? ==> r.0.value == FeedbackCall(worksheetId, f.selected.value, SentComment(f.comment))
    ensures r.0.Some? ==> !r.1.submitting
    ensures r.0.Some? && succeeded ==> r.1 == Initial
    ensures r.0.Some? && !succeeded ==> r.1.selected == f.selected && r.1.comment == f.comment
  {
    if f.selected.None? then (None, f)
    else
      var call := FeedbackCall(worksheetId, f.selected.value, SentComment(f.comment));
      (Some(call), if succeeded then Initial else f.(submitting := false))
  }

  /** A failed submit can be retried as it stands and sends the same call. */
  lemma RetryAfterFailure(f: Form, worksheetId: string, again: bool)
    requires f.selected.Some?
    ensures var after := Submit(f, worksheetId, false).1;
            Submit(after, worksheetId, again).0 == Submit(f, worksheetId, false).0
  {
  }

  /** After a successful submit the form needs a new thumb before it sends
      anything again. */
  lemma SuccessNeedsNewChoice(f: Form, worksheetId: string, again: bool)
    requires f.selected.Some?
    ensures Submit(Submit(f, worksheetId, true).1, worksheetId, again).0.None?
  {
  }
}
