/** The exam page: the chosen topics kept as two parallel lists (names and
    ids), adding and removing a topic, and the exam request built on
    generate. The fetching and the toasts are not modelled. */
module ExamCreation {
  import opened Wrappers
  import opened Catalogue
  import FilterPanel

  datatype Difficulty = Easy | Medium | Hard

  function DifficultyName(d: Difficulty): (r: string)
    ensures r != ""
  {
    match d
    case Easy => "easy"
    case Medium => "medium"
    case Hard => "hard"
  }

  /** The page's topic picker state. */
  datatype Picker = Picker(names: seq<string>, ids: seq<string>, selectedId: string, selectedName: string)

  /** The two lists stay paired and no id appears twice. */
  predicate Valid(p: Picker) {
    |p.names| == |p.ids| && FilterPanel.Distinct(p.ids)
  }

  const Empty: Picker := Picker([], [], "", "")

  /** `handleAddTopic`: a selected, named topic not yet listed is appended to
      both lists and the selection is cleared; otherwise nothing changes. */
  function AddTopic(p: Picker): (r: Picker)
    ensures p.selectedId != "" && p.selectedName != "" && p.selectedId !in p.ids ==>
              r == Picker(p.names + [p.selectedName], p.ids + [p.selectedId], "", "")
    ensures !(p.selectedId != "" && p.selectedName != "" && p.selectedId !in p.ids) ==> r == p
  {
    if p.selectedId != "" && p.selectedName != "" && p.selectedId !in p.ids then
      Picker(p.names + [p.selectedName], p.ids + [p.selectedId], "", "")
    else p
  }

  /** The names whose paired id (same position in `ids`) is not `id`; a name
      without a paired id is kept, as `undefined !== id`. */
  function NamesWithout(names: seq<string>, ids: seq<string>, id: string): (r: seq<string>)
    ensures |r| <= |names|
  {
    if |names| == 0 then []
    else
      var keep := |ids| == 0 || ids[0] != id;
      (if keep then [names[0]] else []) + NamesWithout(names[1..], if |ids| > 0 then ids[1..] else [], id)
  }

  /** `handleRemoveTopic`: both lists filtered, each by itself. */
  function RemoveTopic(p: Picker, id: string): Picker {
    p.(names := NamesWithout(p.names, p.ids, id), ids := FilterPanel.Without(p.ids, id))
  }

  /** The (name, id) pairs of the two lists, position by position. */
  function Pairs(names: seq<string>, ids: seq<string>): (r: seq<(string, string)>)
    requires |names| == |ids|
    ensures |r| == |names| && forall k :: 0 <= k < |r| ==> r[k] == (names[k], ids[k])
  {
    seq(|names|, k requires 0 <= k < |names| => (names[k], ids[k]))
  }

  /** The pairs whose id is not `id`, in order. */
  function PairsWithout(ps: seq<(string, string)>, id: string): seq<(string, string)> {
    if |ps| == 0 then []
    else (if ps[0].1 != id then [ps[0]] else []) + PairsWithout(ps[1..], id)
  }

  /** Removing an id deletes exactly its pair: the two filtered lists are
      still paired, and their pairs are the old pairs without that id, in
      order. */
  lemma {:induction false} RemoveKeepsPairs(names: seq<string>, ids: seq<string>, id: string)
    requires |names| == |ids|
    ensures |NamesWithout(names, ids, id)| == |FilterPanel.Without(ids, id)|
    ensures Pairs(NamesWithout(names, ids, id), FilterPanel.Without(ids, id)) == PairsWithout(Pairs(names, ids), id)
  {
    if |names| > 0 {
      RemoveKeepsPairs(names[1..], ids[1..], id);
      var ps := Pairs(names, ids);
      assert ps[1..] == Pairs(names[1..], ids[1..]);
      var restN, restI := NamesWithout(names[1..], ids[1..], id), FilterPanel.Without(ids[1..], id);
      if ids[0] != id {
        var r := Pairs([names[0]] + restN, [ids[0]] + restI);
        assert r == [ps[0]] + Pairs(restN, restI);
      } else {
        assert [] + restN == restN;
      }
    }
  }

  /** Adding and removing keep the lists paired and free of repeats. */
  lemma PickerStaysValid(p: Picker, id: string)
    requires Valid(p)
    ensures Valid(AddTopic(p))
    ensures Valid(RemoveTopic(p, id))
    ensures id !in RemoveTopic(p, id).ids
  {
    RemoveKeepsPairs(p.names, p.ids, id);
    FilterPanel.WithoutDistinct(p.ids, id);
    var q := AddTopic(p);
    if q != p {
      assert forall k :: 0 <= k < |p.ids| ==> p.ids[k] != p.selectedId;
    }
  }

  /** Removing a just-added topic restores the lists. */
  lemma AddThenRemove(p: Picker)
    requires Valid(p) && p.selectedId != "" && p.selectedName != "" && p.selectedId !in p.ids
    ensures var q := RemoveTopic(AddTopic(p), p.selectedId);
            q.names == p.names && q.ids == p.ids
  {
    FilterPanel.WithoutAppended(p.ids, p.selectedId);
    NamesWithoutAppended(p.names, p.ids, p.selectedName, p.selectedId);
  }

  lemma {:induction false} NamesWithoutAppended(names: seq<string>, ids: seq<string>, n: string, id: string)
    requires |names| == |ids| && id !in ids
    ensures NamesWithout(names + [n], ids + [id], id) == names
  {
    if |names| == 0 {
      assert [n][1..] == [];
    } else {
      assert (names + [n])[1..] == names[1..] + [n];
      assert (ids + [id])[1..] == ids[1..] + [id];
      NamesWithoutAppended(names[1..], ids[1..], n, id);
      assert [names[0]] + names[1..] == names;
    }
  }

  // ---------------------------------------------------------------------
  // Generate

  /** `ExamGenerationRequest`: either a difficulty or the Bloom's taxonomy
      fields are set. */
  datatype ExamRequest = ExamRequest(
    topicIds: seq<string>,
    mcqCount: int,
    shortAnswerCount: int,
    longAnswerCount: int,
    subjectName: string,
    includeImages: bool,
    difficulty: Option<string>,
    useBloomsTaxonomy: Option<bool>,
    bloomsTaxonomyLevel: Option<string>)

  /** The page's exam settings. */
  datatype Settings = Settings(
    difficulty: Difficulty,
    mcqCount: int,
    shortAnswerCount: int,
    longAnswerCount: int,
    useBlooms: bool,
    bloomsLevel: string,
    selectedSubject: string)

  const Defaults: Settings := Settings(Hard, 10, 5, 3, false, "apply", "")

  const NoTopics: string := "Please select at least one topic for the exam"

  /** `handleGenerate`: no request without a topic; otherwise the listed ids,
      the counts as set, the selected subject's name (or nothing), no images,
      and the difficulty when it is set, else the Bloom's fields when both
      are set. */
  function Generate(p: Picker, s: Settings, subjects: seq<Subject>): (r: Result<ExamRequest, string>)
    ensures r.Failure? <==> |p.ids| == 0
    ensures r.Failure? ==> r.error == NoTopics
    ensures r.Success? ==> r.value.topicIds == p.ids && !r.value.includeImages
                           && r.value.mcqCount == s.mcqCount && r.value.shortAnswerCount == s.shortAnswerCount
                           && r.value.longAnswerCount == s.longAnswerCount
    ensures r.Success? && s.selectedSubject != "" && FindSubject(subjects, s.selectedSubject).Some? ==>
              r.value.subjectName == FindSubject(subjects, s.selectedSubject).value.name
  {
    if |p.ids| == 0 then Failure(NoTopics)
    else
      var found := if s.selectedSubject != "" then FindSubject(subjects, s.selectedSubject) else None;
      var subjectName := if found.Some? then found.value.name else "";
      var base := ExamRequest(p.ids, s.mcqCount, s.shortAnswerCount, s.longAnswerCount, subjectName,
                              false, None, None, None);
      if DifficultyName(s.difficulty) != "" then Success(base.(difficulty := Some(DifficultyName(s.difficulty))))
      else if s.useBlooms && s.bloomsLevel != "" then
        Success(base.(useBloomsTaxonomy := Some(true), bloomsTaxonomyLevel := Some(s.bloomsLevel)))
      else Success(base)
  }

  /** The difficulty is always set, so the request always carries it and
      never the Bloom's fields; the subject name is the name of the first
      listed subject with the selected id, and empty when nothing is
      selected or the id is not listed. */
  lemma AlwaysDifficulty(p: Picker, s: Settings, subjects: seq<Subject>)
    requires |p.ids| > 0
    ensures var r := Generate(p, s, subjects).value;
            && r.difficulty == Some(DifficultyName(s.difficulty))
            && r.useBloomsTaxonomy.None? && r.bloomsTaxonomyLevel.None?
            && (s.selectedSubject == "" ==> r.subjectName == "")
            && ((forall k :: 0 <= k < |subjects| ==> subjects[k].id != s.selectedSubject) ==> r.subjectName == "")
    ensures forall k :: 0 <= k < |subjects| && s.selectedSubject != "" && subjects[k].id == s.selectedSubject
                        && (forall j :: 0 <= j < k ==> subjects[j].id != s.selectedSubject) ==>
              Generate(p, s, subjects).value.subjectName == subjects[k].name
  {
    forall k | 0 <= k < |subjects| && s.selectedSubject != "" && subjects[k].id == s.selectedSubject
               && (forall j :: 0 <= j < k ==> subjects[j].id != s.selectedSubject)
      ensures Generate(p, s, subjects).value.subjectName == subjects[k].name
    {
      var m := FirstWith(subjects, SubjectId, s.selectedSubject);
      assert SubjectId(subjects[k]) == s.selectedSubject;
      assert m.Some?;
      assert m.value == k;
    }
  }
}
