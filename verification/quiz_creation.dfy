/** The quiz page: what `handleGenerate` derives from the quiz filters (the
    title, the counts with their defaults, the image flag, the subject name
    and the difficulty-or-Bloom's choice), and the worksheet saved with a
    submitted quiz. The quiz filter panel is not part of this model; its
    filters are an input with every field optional. */
module QuizCreation {
  import opened Wrappers
  import opened Catalogue
  import Questions
  import ResultsPanel

  datatype QuizFilters = QuizFilters(
    topic: string,
    chapter: string,
    mcqCount: Option<int>,
    shortAnswerCount: Option<int>,
    longAnswerCount: Option<int>,
    difficulty: Option<string>,
    includeImagesForMcq: Option<bool>,
    generateRealImages: Option<bool>,
    useBloomsTaxonomy: Option<bool>,
    bloomsTaxonomyLevel: Option<string>)

  /** `QuizGenerationRequest`. */
  datatype QuizRequest = QuizRequest(
    topicId: string,
    mcqCount: int,
    shortAnswerCount: int,
    longAnswerCount: int,
    subjectName: string,
    includeImages: bool,
    generateRealImages: bool,
    difficulty: Option<string>,
    useBloomsTaxonomy: Option<bool>,
    bloomsTaxonomyLevel: Option<string>)

  /** The title when no topic is found (`PageTitle`). */
  const DefaultTitle: string := "Generated Quiz"

  /** `handleGenerate`'s request. The fetched topics, chapters and subjects
      are inputs. */
  function Request(f: QuizFilters, topics: seq<Topic>, chapters: seq<Chapter>, subjects: seq<Subject>): (r: QuizRequest)
    ensures r.topicId == f.topic
    ensures r.subjectName == SubjectNameOf(FindTopic(topics, f.topic), chapters, subjects)
  {
    var mcq := IntOr(f.mcqCount, 5);
    var base := QuizRequest(
      f.topic, mcq, IntOr(f.shortAnswerCount, 0), IntOr(f.longAnswerCount, 0),
      SubjectNameOf(FindTopic(topics, f.topic), chapters, subjects),
      Flag(f.includeImagesForMcq) && mcq > 0, Flag(f.generateRealImages), None, None, None);
    if Given(f.difficulty) then base.(difficulty := f.difficulty)
    else if Flag(f.useBloomsTaxonomy) && Given(f.bloomsTaxonomyLevel) then
      base.(useBloomsTaxonomy := Some(true), bloomsTaxonomyLevel := f.bloomsTaxonomyLevel)
    else base
  }

  /** A quiz always asks for at least one MCQ unless a negative count was
      entered: a missing or zero MCQ count becomes five; the other counts
      default to zero. */
  lemma CountDefaults(f: QuizFilters, topics: seq<Topic>, chapters: seq<Chapter>, subjects: seq<Subject>)
    ensures var r := Request(f, topics, chapters, subjects);
            && (f.mcqCount.None? || f.mcqCount == Some(0) ==> r.mcqCount == 5)
            && (f.mcqCount.Some? && f.mcqCount.value != 0 ==> r.mcqCount == f.mcqCount.value)
            && (f.shortAnswerCount.None? ==> r.shortAnswerCount == 0)
            && (f.longAnswerCount.None? ==> r.longAnswerCount == 0)
  {
  }

  /** Images are asked for exactly when the MCQ image flag is set and the MCQ
      count is positive; real images only when asked for. */
  lemma ImageFlags(f: QuizFilters, topics: seq<Topic>, chapters: seq<Chapter>, subjects: seq<Subject>)
    ensures var r := Request(f, topics, chapters, subjects);
            && (r.includeImages <==> Flag(f.includeImagesForMcq) && r.mcqCount > 0)
            && (r.generateRealImages <==> Flag(f.generateRealImages))
  {
  }

  /** The difficulty is sent exactly when the filters give one, and then as
      given (the page's own "easy" fallback never reaches the request); the
      Bloom's fields only without it and never both. */
  lemma DifficultyOrBlooms(f: QuizFilters, topics: seq<Topic>, chapters: seq<Chapter>, subjects: seq<Subject>)
    ensures var r := Request(f, topics, chapters, subjects);
            && (r.difficulty.Some? <==> Given(f.difficulty))
            && (r.difficulty.Some? ==> r.difficulty == f.difficulty)
            && (r.useBloomsTaxonomy.Some? <==> !Given(f.difficulty) && Flag(f.useBloomsTaxonomy) && Given(f.bloomsTaxonomyLevel))
            && !(r.difficulty.Some? && r.useBloomsTaxonomy.Some?)
            && (r.bloomsTaxonomyLevel.Some? ==> r.useBloomsTaxonomy == Some(true))
  {
  }

  /** The worksheet a submitted quiz is saved under: "<title> - Quiz" with the
      question ids in order. */
  function QuizSave(title: string, topicId: string, qs: seq<Questions.Question>): (r: ResultsPanel.SaveRequest)
    ensures r.questionIds == ResultsPanel.Ids(qs) && r.topicId == topicId
    ensures |r.name| == |title| + 7 && r.name[..|title|] == title && r.name[|title|..] == " - Quiz"
  {
    ResultsPanel.SaveRequest(title + " - Quiz", topicId, ResultsPanel.Ids(qs), "")
  }

  /** Without a matching topic the quiz is titled "Generated Quiz" and saved as
      "Generated Quiz - Quiz". */
  lemma UnknownTopicTitle(f: QuizFilters, topics: seq<Topic>, topicId: string, qs: seq<Questions.Question>)
    requires forall k :: 0 <= k < |topics| ==> topics[k].id != f.topic
    ensures PageTitle(topics, f.topic, DefaultTitle) == DefaultTitle
    ensures QuizSave(PageTitle(topics, f.topic, DefaultTitle), topicId, qs).name == "Generated Quiz - Quiz"
  {
  }
}
