/** The worksheet filter panel as a state machine: the selection cascade as
    the grade, subject, chapter and topic lists arrive, the question-type
    toggle, clearing, and the filters it hands on when asked to generate.
    Fetching is not modelled: a load event carries the fetched list, or
    nothing when the fetch failed. */
module FilterPanel {
  import opened Wrappers

  /** `WorksheetFilters`: what the panel hands to the page. The three counts
      and the difficulty are optional in the type. */
  datatype Filters = Filters(
    board: string,
    grade: string,
    subject: string,
    assessmentType: string,
    chapter: string,
    topic: string,
    questionCount: int,
    questionTypes: seq<string>,
    difficulty: Option<string>,
    mcqCount: Option<int>,
    shortAnswerCount: Option<int>,
    longAnswerCount: Option<int>)

  /** The panel's state; the fetched lists are reduced to their ids. */
  datatype Panel = Panel(
    board: string,
    grade: string,
    subject: string,
    assessmentType: string,
    chapter: string,
    topic: string,
    questionCount: int,
    selectedTypes: seq<string>,
    grades: seq<string>,
    subjects: seq<string>,
    chapters: seq<string>,
    topics: seq<string>,
    difficulty: string,
    mcqCount: int,
    shortAnswerCount: int,
    longAnswerCount: int)

  const Initial: Panel := Panel("CBSE", "", "", "chapter", "", "", 5, [], [], [], [], [], "medium", 0, 0, 0)

  // ---------------------------------------------------------------------
  // Selection cascade

  /** The grade list arrived: it is stored, and the first grade is selected
      when none is; nothing else changes. */
  function GradesLoaded(p: Panel, data: Option<seq<string>>): (r: Panel)
    ensures data.None? ==> r == p
    ensures data.Some? ==> r.grades == data.value
    ensures data.Some? && |data.value| > 0 && p.grade == "" ==> r.grade == data.value[0]
    ensures data.Some? && (|data.value| == 0 || p.grade != "") ==> r.grade == p.grade
    ensures r.(grades := p.grades, grade := p.grade) == p
  {
    match data
    case None => p
    case Some(gs) => p.(grades := gs, grade := if |gs| > 0 && p.grade == "" then gs[0] else p.grade)
  }

  /** The subject list arrived: the subject selection and the chapter and
      topic lists are cleared, and nothing else changes. */
  function SubjectsLoaded(p: Panel, data: Option<seq<string>>): (r: Panel)
    ensures data.None? ==> r == p
    ensures data.Some? ==> r.subjects == data.value && r.subject == ""
                           && r.chapters == [] && r.topics == []
    ensures r.(subjects := p.subjects, subject := p.subject, chapters := p.chapters, topics := p.topics) == p
  {
    match data
    case None => p
    case Some(ss) => p.(subjects := ss, subject := "", chapters := [], topics := [])
  }

  /** The chapter list arrived: the chapter selection and the topic list are
      cleared, and nothing else changes. */
  function ChaptersLoaded(p: Panel, data: Option<seq<string>>): (r: Panel)
    ensures data.None? ==> r == p
    ensures data.Some? ==> r.chapters == data.value && r.chapter == "" && r.topics == []
    ensures r.(chapters := p.chapters, chapter := p.chapter, topics := p.topics) == p
  {
    match data
    case None => p
    case Some(cs) => p.(chapters := cs, chapter := "", topics := [])
  }

  /** The topic list arrived: the topic selection is cleared, and nothing
      else changes. */
  function TopicsLoaded(p: Panel, data: Option<seq<string>>): (r: Panel)
    ensures data.None? ==> r == p
    ensures data.Some? ==> r.topics == data.value && r.topic == ""
    ensures r.(topics := p.topics, topic := p.topic) == p
  {
    match data
    case None => p
    case Some(ts) => p.(topics := ts, topic := "")
  }

  // ---------------------------------------------------------------------
  // Question types

  /** The list without `t`, in order. */
  function Without(xs: seq<string>, t: string): (r: seq<string>)
    ensures |r| <= |xs|
    ensures forall u :: u in r <==> u in xs && u != t
  {
    if |xs| == 0 then []
    else if xs[0] == t then Without(xs[1..], t)
    else [xs[0]] + Without(xs[1..], t)
  }

  /** `toggleQuestionType`: a selected type is removed, another is added at
      the end. */
  function Toggle(xs: seq<string>, t: string): seq<string> {
    if t in xs then Without(xs, t) else xs + [t]
  }

  predicate Distinct(xs: seq<string>) {
    forall i, j :: 0 <= i < j < |xs| ==> xs[i] != xs[j]
  }

  /** Toggling flips the type's membership and nothing else's. */
  lemma ToggleFlips(xs: seq<string>, t: string, u: string)
    ensures t in Toggle(xs, t) <==> t !in xs
    ensures u != t ==> (u in Toggle(xs, t) <==> u in xs)
  {
  }

  /** Toggling twice restores membership; starting from an unselected type
      it restores the very list. */
  lemma ToggleTwice(xs: seq<string>, t: string, u: string)
    ensures u in Toggle(Toggle(xs, t), t) <==> u in xs
    ensures t !in xs ==> Toggle(Toggle(xs, t), t) == xs
  {
    if t !in xs {
      WithoutAppended(xs, t);
    }
  }

  lemma {:induction false} WithoutAppended(xs: seq<string>, t: string)
    requires t !in xs
    ensures Without(xs + [t], t) == xs
  {
    if |xs| == 0 {
      assert [] + [t] == [t];
      assert [t][1..] == [];
    } else {
      assert (xs + [t])[1..] == xs[1..] + [t];
      WithoutAppended(xs[1..], t);
      assert [xs[0]] + xs[1..] == xs;
    }
  }

  /** A list without repeats keeps having none. */
  lemma ToggleKeepsDistinct(xs: seq<string>, t: string)
    requires Distinct(xs)
    ensures Distinct(Toggle(xs, t))
  {
    if t in xs {
      WithoutDistinct(xs, t);
    }
  }

  lemma {:induction false} WithoutDistinct(xs: seq<string>, t: string)
    requires Distinct(xs)
    ensures Distinct(Without(xs, t))
  {
    if |xs| > 0 {
      assert Distinct(xs[1..]) by {
        forall i, j | 0 <= i < j < |xs[1..]| ensures xs[1..][i] != xs[1..][j] {
          assert xs[1..][i] == xs[i + 1] && xs[1..][j] == xs[j + 1];
        }
      }
      WithoutDistinct(xs[1..], t);
      var rest := Without(xs[1..], t);
      if xs[0] != t {
        assert xs[0] !in xs[1..];
        assert xs[0] !in rest;
        var r := [xs[0]] + rest;
        forall i, j | 0 <= i < j < |r| ensures r[i] != r[j] {
          if i == 0 {
            assert r[j] == rest[j - 1];
          } else {
            assert r[i] == rest[i - 1] && r[j] == rest[j - 1];
          }
        }
      }
    }
  }

  // ---------------------------------------------------------------------
  // Clear and generate

  /** `handleClear`: chapter, topic, count, types, the per-type counts and the
      difficulty go back to their defaults; board, grade, subject and the
      fetched lists stay. */
  function Clear(p: Panel): (r: Panel)
    ensures r.chapter == "" && r.topic == "" && r.questionCount == 5 && r.selectedTypes == []
    ensures r.mcqCount == 0 && r.shortAnswerCount == 0 && r.longAnswerCount == 0 && r.difficulty == "medium"
    ensures r.board == p.board && r.grade == p.grade && r.subject == p.subject
    ensures r.grades == p.grades && r.subjects == p.subjects && r.chapters == p.chapters && r.topics == p.topics
    ensures r.assessmentType == p.assessmentType
  {
    p.(chapter := "", topic := "", questionCount := 5, selectedTypes := [],
       mcqCount := 0, shortAnswerCount := 0, longAnswerCount := 0, difficulty := "medium")
  }

  /** `mcq + short + long || questionCount`: the per-type counts when they add
      up to something, the overall count otherwise. */
  function TotalCount(p: Panel): int {
    var sum := p.mcqCount + p.shortAnswerCount + p.longAnswerCount;
    if sum != 0 then sum else p.questionCount
  }

  /** `handleGenerate`: nothing without a topic; otherwise the current
      selection with the types as selected and the total count. */
  function Generate(p: Panel): (r: Option<Filters>)
    ensures r.None? <==> p.topic == ""
    ensures r.Some? ==> r.value.topic == p.topic && r.value.questionTypes == p.selectedTypes
                        && r.value.questionCount == TotalCount(p)
                        && r.value.mcqCount == Some(p.mcqCount)
                        && r.value.shortAnswerCount == Some(p.shortAnswerCount)
                        && r.value.longAnswerCount == Some(p.longAnswerCount)
                        && r.value.difficulty == Some(p.difficulty)
  {
    if p.topic == "" then None
    else Some(Filters(p.board, p.grade, p.subject, p.assessmentType, p.chapter, p.topic,
                      TotalCount(p), p.selectedTypes, Some(p.difficulty),
                      Some(p.mcqCount), Some(p.shortAnswerCount), Some(p.longAnswerCount)))
  }

  /** Clearing is idempotent and leaves nothing to generate from. */
  lemma ClearIdempotent(p: Panel)
    ensures Clear(Clear(p)) == Clear(p)
    ensures Generate(Clear(p)).None?
  {
  }

  /** A cleared panel sends the default count of five; so does any panel
      whose per-type counts add to zero. */
  lemma CountFallback(p: Panel)
    ensures TotalCount(Clear(p)) == 5
    ensures p.mcqCount + p.shortAnswerCount + p.longAnswerCount == 0 ==> TotalCount(p) == p.questionCount
    ensures p.mcqCount >= 0 && p.shortAnswerCount >= 0 && p.longAnswerCount >= 0
            && p.mcqCount + p.shortAnswerCount + p.longAnswerCount > 0 ==>
              TotalCount(p) == p.mcqCount + p.shortAnswerCount + p.longAnswerCount
  {
  }

  /** Fresh topics always need a new topic choice before generating, and a
      fresh panel cannot generate until a topic is chosen. */
  lemma NewTopicsBlockGenerate(p: Panel, ts: seq<string>)
    ensures Generate(TopicsLoaded(p, Some(ts))).None?
    ensures Generate(Initial).None?
  {
  }

  /** Choosing a topic is what enables generating. */
  function ChooseTopic(p: Panel, topic: string): (r: Panel)
    ensures r.topic == topic
    ensures topic != "" ==> Generate(r).Some? && Generate(r).value.topic == topic
  {
    p.(topic := topic)
  }
}
