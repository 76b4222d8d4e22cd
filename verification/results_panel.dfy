/** The results panel's list operations and derived text: updating a question
    by id, drag-and-drop reordering, the clipboard text, the save guard, the
    export file name and the summary line. The clipboard, the toasts and the
    network calls are not modelled. */
module ResultsPanel {
  import opened Wrappers
  import opened Text
  import opened Questions
  import Export

  // ---------------------------------------------------------------------
  // Update by id

  /** `Partial<Question>`: each field is either absent or a new value (for
      an optional field the new value may itself be absent). */
  datatype Patch = Patch(
    id: Option<string>,
    qtype: Option<string>,
    text: Option<string>,
    options: Option<Option<seq<string>>>,
    correctAnswer: Option<Field<Answer>>,
    explanation: Option<string>,
    images: Option<Option<seq<string>>>,
    difficulty: Option<string>,
    marks: Option<int>,
    topicId: Option<string>,
    userId: Option<string>,
    createdAt: Option<Option<string>>)

  /** A field after spreading: the patch's value when it has one, the old
      value otherwise. */
  predicate Spread<T(==)>(patch: Option<T>, was: T, now: T) {
    (patch.Some? ==> now == patch.value) && (patch.None? ==> now == was)
  }

  /** `{ ...q, ...updates }`: fields the patch has replace the question's. */
  function Apply(q: Question, p: Patch): (r: Question)
    ensures Spread(p.id, q.id, r.id) && Spread(p.qtype, q.qtype, r.qtype)
    ensures Spread(p.text, q.text, r.text) && Spread(p.options, q.options, r.options)
    ensures Spread(p.correctAnswer, q.correctAnswer, r.correctAnswer)
    ensures Spread(p.explanation, q.explanation, r.explanation) && Spread(p.images, q.images, r.images)
    ensures Spread(p.difficulty, q.difficulty, r.difficulty) && Spread(p.marks, q.marks, r.marks)
    ensures Spread(p.topicId, q.topicId, r.topicId) && Spread(p.userId, q.userId, r.userId)
    ensures Spread(p.createdAt, q.createdAt, r.createdAt)
  {
    Question(
      p.id.GetOr(q.id), p.qtype.GetOr(q.qtype), p.text.GetOr(q.text),
      p.options.GetOr(q.options), p.correctAnswer.GetOr(q.correctAnswer),
      p.explanation.GetOr(q.explanation), p.images.GetOr(q.images),
      p.difficulty.GetOr(q.difficulty), p.marks.GetOr(q.marks),
      p.topicId.GetOr(q.topicId), p.userId.GetOr(q.userId), p.createdAt.GetOr(q.createdAt))
  }

  /** The patch holding every field of `e`, which is what the question card's
      edit form sends. */
  function Whole(e: Question): Patch {
    Patch(Some(e.id), Some(e.qtype), Some(e.text), Some(e.options), Some(e.correctAnswer),
          Some(e.explanation), Some(e.images), Some(e.difficulty), Some(e.marks),
          Some(e.topicId), Some(e.userId), Some(e.createdAt))
  }

  const NoChange: Patch := Patch(None, None, None, None, None, None, None, None, None, None, None, None)

  /** `handleUpdate`: every question with the id gets the patch, the others
      are kept as they are, and the list keeps its length and order. */
  function UpdateById(qs: seq<Question>, id: string, p: Patch): (r: seq<Question>)
    ensures |r| == |qs|
    ensures forall i :: 0 <= i < |qs| && qs[i].id != id ==> r[i] == qs[i]
    ensures forall i :: 0 <= i < |qs| && qs[i].id == id ==> r[i] == Apply(qs[i], p)
  {
    seq(|qs|, i requires 0 <= i < |qs| => if qs[i].id == id then Apply(qs[i], p) else qs[i])
  }

  /** Applying a patch a second time changes nothing, and the empty patch
      changes nothing at all. */
  lemma ApplyIdempotent(q: Question, p: Patch)
    ensures Apply(Apply(q, p), p) == Apply(q, p)
    ensures Apply(q, NoChange) == q
  {
  }

  /** Submitting the edit form replaces the question by the edited record. */
  lemma WholeReplaces(q: Question, e: Question)
    ensures Apply(q, Whole(e)) == e
  {
  }

  /** Repeating an update is harmless, even when the patch changes the id. */
  lemma UpdateIdempotent(qs: seq<Question>, id: string, p: Patch)
    ensures UpdateById(UpdateById(qs, id, p), id, p) == UpdateById(qs, id, p)
  {
    var once := UpdateById(qs, id, p);
    forall i | 0 <= i < |qs| ensures UpdateById(once, id, p)[i] == once[i] {
      if qs[i].id == id {
        ApplyIdempotent(qs[i], p);
      }
    }
  }

  /** An id that no question has leaves the list unchanged. */
  lemma UpdateUnknownId(qs: seq<Question>, id: string, p: Patch)
    requires forall i :: 0 <= i < |qs| ==> qs[i].id != id
    ensures UpdateById(qs, id, p) == qs
  {
  }

  // ---------------------------------------------------------------------
  // Drag and drop

  /** `arrayMove(s, from, to)`: take the element at `from` out and insert it
      so that it ends at `to`. */
  function ArrayMove<T>(s: seq<T>, from: nat, to: nat): (r: seq<T>)
    requires from < |s| && to < |s|
    ensures |r| == |s|
    ensures r[to] == s[from]
  {
    var rest := s[..from] + s[from + 1..];
    rest[..to] + [s[from]] + rest[to..]
  }

  /** `s` without its element at `k`. */
  function Remove<T>(s: seq<T>, k: nat): (r: seq<T>)
    requires k < |s|
    ensures |r| == |s| - 1
  {
    s[..k] + s[k + 1..]
  }

  /** Apart from the moved element nothing changes order: removing it from
      its new place gives the list without it. The move is a permutation, and
      moving back restores the list. */
  lemma MoveCharacterised<T>(s: seq<T>, from: nat, to: nat)
    requires from < |s| && to < |s|
    ensures Remove(ArrayMove(s, from, to), to) == Remove(s, from)
    ensures multiset(ArrayMove(s, from, to)) == multiset(s)
    ensures ArrayMove(ArrayMove(s, from, to), to, from) == s
  {
    var rest := Remove(s, from);
    var r := ArrayMove(s, from, to);
    assert r == rest[..to] + [s[from]] + rest[to..];
    assert r[..to] == rest[..to];
    assert r[to + 1..] == rest[to..];
    assert rest[..to] + rest[to..] == rest;
    assert s == s[..from] + [s[from]] + s[from + 1..];
    calc {
      multiset(r);
      multiset(rest[..to]) + multiset([s[from]]) + multiset(rest[to..]);
      multiset(rest) + multiset([s[from]]);
      multiset(s[..from]) + multiset(s[from + 1..]) + multiset([s[from]]);
      multiset(s);
    }
    assert rest[..from] + [s[from]] + rest[from..] == s;
  }

  /** Index of the first question with the id. */
  function IndexOfId(qs: seq<Question>, id: string): (r: Option<nat>)
    ensures r.Some? ==> r.value < |qs| && qs[r.value].id == id
                        && forall j :: 0 <= j < r.value ==> qs[j].id != id
    ensures r.None? ==> forall j :: 0 <= j < |qs| ==> qs[j].id != id
  {
    if |qs| == 0 then None
    else if qs[0].id == id then Some(0)
    else match IndexOfId(qs[1..], id)
      case Some(k) => Some(k + 1)
      case None => None
  }

  predicate HasId(qs: seq<Question>, id: string) {
    exists j :: 0 <= j < |qs| && qs[j].id == id
  }

  /** `handleDragEnd`: nothing happens without a target or when the item is
      dropped on itself; otherwise the dragged question moves to the target's
      position. The sortable list only reports ids of its own items. */
  function DragEnd(qs: seq<Question>, active: string, over: Option<string>): (r: seq<Question>)
    requires over.Some? ==> HasId(qs, active) && HasId(qs, over.value)
    ensures over.None? || over.value == active ==> r == qs
    ensures |r| == |qs| && multiset(r) == multiset(qs)
  {
    if over.None? || over.value == active then qs
    else
      var from := IndexOfId(qs, active).value;
      var to := IndexOfId(qs, over.value).value;
      MoveCharacterised(qs, from, to);
      ArrayMove(qs, from, to)
  }

  /** After a real move the dragged question sits where the target was, and
      the rest keep their relative order. */
  lemma DragMovesToTarget(qs: seq<Question>, active: string, over: string)
    requires HasId(qs, active) && HasId(qs, over) && active != over
    ensures var from := IndexOfId(qs, active).value;
            var to := IndexOfId(qs, over).value;
            var r := DragEnd(qs, active, Some(over));
            && r[to] == qs[from]
            && Remove(r, to) == Remove(qs, from)
  {
    var from := IndexOfId(qs, active).value;
    var to := IndexOfId(qs, over).value;
    MoveCharacterised(qs, from, to);
  }

  lemma TotalMarksSplice(a: seq<Question>, x: Question, b: seq<Question>)
    ensures TotalMarks(a + [x] + b) == TotalMarks(a + b) + x.marks
  {
    TotalMarksAppend(a + [x], b);
    TotalMarksAppend(a, [x]);
    TotalMarksAppend(a, b);
    assert TotalMarks([x]) == TotalMarks([x][..0]) + x.marks;
  }

  /** The move takes `x` out between `a` and `b` and puts it back between
      `c` and `d`, where `c + d` is `a + b`. */
  lemma MoveShape<T>(s: seq<T>, from: nat, to: nat)
    requires from < |s| && to < |s|
    ensures var rest := s[..from] + s[from + 1..];
            && s == s[..from] + [s[from]] + s[from + 1..]
            && ArrayMove(s, from, to) == rest[..to] + [s[from]] + rest[to..]
            && rest[..to] + rest[to..] == rest
  {
  }

  lemma SameTotal(s: seq<Question>, t: seq<Question>, x: Question,
                  a: seq<Question>, b: seq<Question>, c: seq<Question>, d: seq<Question>)
    requires s == a + [x] + b && t == c + [x] + d && c + d == a + b
    ensures TotalMarks(s) == TotalMarks(t)
  {
    TotalMarksSplice(a, x, b);
    TotalMarksSplice(c, x, d);
  }

  /** Reordering never changes the total of the marks. */
  lemma MoveKeepsTotal(qs: seq<Question>, from: nat, to: nat)
    requires from < |qs| && to < |qs|
    ensures TotalMarks(ArrayMove(qs, from, to)) == TotalMarks(qs)
  {
    MoveShape(qs, from, to);
    var rest := qs[..from] + qs[from + 1..];
    SameTotal(qs, ArrayMove(qs, from, to), qs[from], qs[..from], qs[from + 1..], rest[..to], rest[to..]);
  }

  // ---------------------------------------------------------------------
  // Clipboard text

  function CopyOptionLines(os: seq<string>): (r: seq<string>)
    ensures |r| == |os| && forall j :: 0 <= j < |os| ==> r[j] == Letter(j) + ". " + os[j]
  {
    seq(|os|, j requires 0 <= j < |os| => Letter(j) + ". " + os[j])
  }

  /** One question: its number and text on a line, then its lettered options
      one per line, for any question that has an options list. */
  function CopyBlock(q: Question, i: nat): string {
    "Q" + NatToString(i + 1) + ". " + q.text + "\n"
    + (if q.options.Some? then Join(CopyOptionLines(q.options.value), "\n") else "")
  }

  function CopyBlocks(qs: seq<Question>): (r: seq<string>)
    ensures |r| == |qs| && forall i :: 0 <= i < |qs| ==> r[i] == CopyBlock(qs[i], i)
  {
    seq(|qs|, i requires 0 <= i < |qs| => CopyBlock(qs[i], i))
  }

  /** `handleCopy`: the blocks separated by a blank line. */
  function CopyText(qs: seq<Question>): string {
    Join(CopyBlocks(qs), "\n\n")
  }

  /** The option part of a block splits back into one line per option when no
      option contains a line break. The letter code wraps at 65536, so index
      65481 would be lettered with a line break itself. */
  lemma CopyOptionsSplit(os: seq<string>)
    requires 0 < |os| <= 65481
    requires forall j :: 0 <= j < |os| ==> Free(os[j], '\n')
    ensures Split(Join(CopyOptionLines(os), "\n"), '\n') == CopyOptionLines(os)
  {
    var ls := CopyOptionLines(os);
    forall j | 0 <= j < |ls| ensures Free(ls[j], '\n') {
      assert ls[j] == Letter(j) + ". " + os[j];
      assert forall k :: 0 <= k < |os[j]| ==> ls[j][|Letter(j)| + 2 + k] == os[j][k];
      LetterNotNewline(j);
    }
    SplitJoin(ls, '\n');
  }

  lemma LetterNotNewline(j: int)
    requires 0 <= j < 65481
    ensures Letter(j)[0] != '\n'
  {
  }

  lemma {:induction false} JoinContains(xs: seq<string>, sep: string, i: nat)
    requires i < |xs|
    ensures Contains(Join(xs, sep), xs[i])
  {
    if |xs| == 1 {
      ContainsInfix("", xs[0], "");
      assert "" + xs[0] + "" == xs[0];
    } else if i == 0 {
      ContainsInfix("", xs[0], sep + Join(xs[1..], sep));
      assert "" + xs[0] + (sep + Join(xs[1..], sep)) == Join(xs, sep);
    } else {
      JoinContains(xs[1..], sep, i - 1);
      assert xs[1..][i - 1] == xs[i];
      ContainsPrepend(xs[0] + sep, Join(xs[1..], sep), xs[i]);
      ContainsSame(Join(xs, sep), xs[0] + sep + Join(xs[1..], sep), xs[i]);
    }
  }

  /** Every question's block is in the clipboard text, headed by its number
      and text. */
  lemma CopyHasEveryQuestion(qs: seq<Question>, i: nat)
    requires i < |qs|
    ensures Contains(CopyText(qs), CopyBlock(qs[i], i))
    ensures CopyBlock(qs[i], i)[..|"Q" + NatToString(i + 1) + ". " + qs[i].text + "\n"|]
            == "Q" + NatToString(i + 1) + ". " + qs[i].text + "\n"
  {
    JoinContains(CopyBlocks(qs), "\n\n", i);
  }

  // ---------------------------------------------------------------------
  // Save, export and summary

  /** What `api.saveWorksheet` is called with. */
  datatype SaveRequest = SaveRequest(name: string, topicId: string, questionIds: seq<string>, token: string)

  function Ids(qs: seq<Question>): (r: seq<string>)
    ensures |r| == |qs| && forall i :: 0 <= i < |qs| ==> r[i] == qs[i].id
  {
    seq(|qs|, i requires 0 <= i < |qs| => qs[i].id)
  }

  /** `handleSave`: no call unless the trimmed name is non-empty and a topic id
      is set; the name is sent untrimmed, the ids in the current order. */
  function SaveCall(name: string, topicId: Option<string>, qs: seq<Question>): (r: Option<SaveRequest>)
    ensures r.Some? <==> |JsTrim(name)| > 0 && topicId.Some? && |topicId.value| > 0
    ensures r.Some? ==> r.value.name == name && r.value.topicId == topicId.value
                        && r.value.questionIds == Ids(qs)
  {
    if |JsTrim(name)| == 0 || topicId.None? || |topicId.value| == 0 then None
    else Some(SaveRequest(name, topicId.value, Ids(qs), ""))
  }

  /** A save goes out exactly when the name has a character other than
      whitespace and a topic id is set: a blank name never reaches the server. */
  lemma SaveNeedsNameAndTopic(name: string, topicId: Option<string>, qs: seq<Question>)
    ensures SaveCall(name, topicId, qs).Some? <==>
              (exists k :: 0 <= k < |name| && name[k] !in JsWhitespace) && topicId.Some? && topicId.value != ""
  {
    TrimEmptyIff(name, JsWhitespace);
  }

  /** The panel's export name: "worksheet_", the sanitised topic, "_" and the
      date part (first ten characters) of the ISO timestamp. */
  function PanelFileName(topic: string, isoTimestamp: string): string {
    "worksheet_" + Export.Sanitise(topic) + "_" + Take(isoTimestamp, 10)
  }

  /** `handleExport`: the format is "pdf" or "txt", so the export always
      succeeds, under the panel's name with the format's extension. */
  lemma PanelExportName(topic: string, qs: seq<Question>, isPdf: bool, includeAnswers: bool,
                        isoTimestamp: string, now: nat, date: string)
    ensures var format := if isPdf then "pdf" else "txt";
            var r := Export.ExportWorksheet(topic, qs, Export.ExportOptions(includeAnswers, format, Some(PanelFileName(topic, isoTimestamp))), now, date);
            r.Success? && r.value.name == PanelFileName(topic, isoTimestamp) + "." + format
  {
  }

  /** `${n} question${n > 1 ? 's' : ''}`. */
  function CountLabel(n: nat): (r: string)
    ensures |r| > 0 && r[|r| - 1] == 's' <==> n > 1
  {
    NatToString(n) + " question" + (if n > 1 then "s" else "")
  }
}
