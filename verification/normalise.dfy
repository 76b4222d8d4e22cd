/** The save loop of the worksheet endpoint: each record is read through key
    synonyms with defaults, records without a usable question text are
    skipped, and the rest are kept in order. A record that is not a dict is
    skipped too (its `.get` raises inside the per-record `try`). */
module Normalise {
  import opened Wrappers
  import opened JsonValue

  /** The fields of a stored question taken from the model's record; the
      generated id, topic id and user id are added by the caller. */
  datatype SavedQuestion = SavedQuestion(
    qtype: Json,
    text: Json,
    options: Json,
    correctAnswer: Json,
    explanation: Json,
    images: Json,
    difficulty: Json,
    marks: Json)

  /** Python's `a or b`. */
  function PyOr(a: Json, b: Json): (r: Json)
    ensures Truthy(r) <==> Truthy(a) || Truthy(b)
  {
    if Truthy(a) then a else b
  }

  /** `q.get("text") or q.get("question") or q.get("question_text")`. */
  function QuestionText(fs: seq<(string, Json)>): Json {
    PyOr(PyOr(Get(fs, "text"), Get(fs, "question")), Get(fs, "question_text"))
  }

  /** One record, or `None` when it is skipped. */
  function NormaliseRecord(q: Json): (r: Option<SavedQuestion>)
    ensures r.Some? <==> q.Obj? && (Truthy(Get(q.fields, "text")) || Truthy(Get(q.fields, "question"))
                                    || Truthy(Get(q.fields, "question_text")))
    ensures r.Some? ==> Truthy(r.value.text)
  {
    if !q.Obj? then None
    else
      var fs := q.fields;
      var text := QuestionText(fs);
      if !Truthy(text) then None
      else Some(SavedQuestion(
        qtype := GetOr(fs, "type", Str("mcq")),
        text := text,
        options := GetOr(fs, "options", GetOr(fs, "choices", Arr([]))),
        correctAnswer := GetOr(fs, "correct_answer", Get(fs, "answer")),
        explanation := GetOr(fs, "explanation", Str("")),
        images := GetOr(fs, "images", Arr([])),
        difficulty := GetOr(fs, "difficulty", Str("medium")),
        marks := GetOr(fs, "marks", Num(1.0))))
  }

  /** The value stored under `key` when the key is present, else `default`. */
  function ByPresence(fs: seq<(string, Json)>, key: string, default: Json): Json {
    if HasKey(fs, key) then Get(fs, key) else default
  }

  /** The synonyms and defaults, field by field. `text` is the first truthy
      synonym in the order text, question, question_text; `options` follows
      key presence, not truthiness: a present but empty or null `options`
      wins over `choices`. */
  lemma NormaliseFields(q: Json)
    requires NormaliseRecord(q).Some?
    ensures var fs := q.fields;
            var s := NormaliseRecord(q).value;
            && s.text == (if Truthy(Get(fs, "text")) then Get(fs, "text")
                          else if Truthy(Get(fs, "question")) then Get(fs, "question")
                          else Get(fs, "question_text"))
            && s.options == ByPresence(fs, "options", ByPresence(fs, "choices", Arr([])))
            && s.correctAnswer == ByPresence(fs, "correct_answer", ByPresence(fs, "answer", Null))
            && s.qtype == ByPresence(fs, "type", Str("mcq"))
            && s.explanation == ByPresence(fs, "explanation", Str(""))
            && s.images == ByPresence(fs, "images", Arr([]))
            && s.difficulty == ByPresence(fs, "difficulty", Str("medium"))
            && s.marks == ByPresence(fs, "marks", Num(1.0))
  {
  }

  // ---------------------------------------------------------------------
  // The saved list

  /** The positions of `xs` whose element satisfies `p`, in increasing
      order. */
  function Positions<T>(xs: seq<T>, p: T -> bool): (ks: seq<nat>)
    ensures forall j :: 0 <= j < |ks| ==> ks[j] < |xs| && p(xs[ks[j]])
    ensures forall j, k :: 0 <= j < k < |ks| ==> ks[j] < ks[k]
    ensures forall i :: 0 <= i < |xs| && p(xs[i]) ==> i in ks
  {
    if |xs| == 0 then []
    else
      var init := Positions(xs[..|xs| - 1], p);
      assert forall i :: 0 <= i < |xs| - 1 ==> xs[..|xs| - 1][i] == xs[i];
      if p(xs[|xs| - 1]) then init + [|xs| - 1] else init
  }

  predicate Saved(q: Json) {
    NormaliseRecord(q).Some?
  }

  /** The positions of the records that are kept, in increasing order. */
  function KeptIndices(records: seq<Json>): (ks: seq<nat>)
    ensures forall j :: 0 <= j < |ks| ==> ks[j] < |records| && NormaliseRecord(records[ks[j]]).Some?
    ensures forall j, k :: 0 <= j < k < |ks| ==> ks[j] < ks[k]
    ensures forall i :: 0 <= i < |records| && NormaliseRecord(records[i]).Some? ==> i in ks
  {
    Positions(records, Saved)
  }

  /** The questions the loop saves, in record order. */
  function SaveAll(records: seq<Json>): (r: seq<SavedQuestion>)
    ensures |r| == |KeptIndices(records)|
    ensures forall j :: 0 <= j < |r| ==>
              Some(r[j]) == NormaliseRecord(records[KeptIndices(records)[j]])
  {
    if |records| == 0 then []
    else
      var init := SaveAll(records[..|records| - 1]);
      assert forall i :: 0 <= i < |records| - 1 ==> records[..|records| - 1][i] == records[i];
      match NormaliseRecord(records[|records| - 1])
      case Some(s) => init + [s]
      case None => init
  }

  /** Nothing is saved exactly when no record has a usable text. */
  lemma SaveAllEmpty(records: seq<Json>)
    ensures |SaveAll(records)| == 0 <==> forall i :: 0 <= i < |records| ==> NormaliseRecord(records[i]).None?
  {
    var ks := KeptIndices(records);
    if |ks| > 0 {
      assert NormaliseRecord(records[ks[0]]).Some?;
    }
  }
}
