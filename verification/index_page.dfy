/** The worksheet page: what `handleGenerate` derives from the filter panel's
    filters (the title, the counts and difficulty with their defaults, the
    image flag and the subject name) and passes to the worksheet generator. */
module IndexPage {
  import opened Wrappers
  import opened Catalogue
  import FilterPanel

  /** The per-type image flags the page reads from the filters. The filter
      panel's `WorksheetFilters` type has no such fields, so from that panel
      they are always absent. */
  datatype ImageFlags = ImageFlags(mcq: Option<bool>, short: Option<bool>, long: Option<bool>)

  const NoFlags: ImageFlags := ImageFlags(None, None, None)

  /** The arguments of `api.generateWorksheet`. */
  datatype WorksheetRequest = WorksheetRequest(
    topicId: string,
    mcqCount: int,
    shortAnswerCount: int,
    longAnswerCount: int,
    difficulty: string,
    includeImages: bool,
    subjectName: string)

  /** The title when no topic is found (`PageTitle`). */
  const DefaultTitle: string := "Generated Worksheet"

  /** The request. A non-boolean image value falls back to the generator's
      `false` default, so the flag is a plain truth value here. */
  function Request(f: FilterPanel.Filters, flags: ImageFlags, topics: seq<Topic>,
                   chapters: seq<Chapter>, subjects: seq<Subject>): (r: WorksheetRequest)
    ensures r.topicId == f.topic
    ensures r.subjectName == SubjectNameOf(FindTopic(topics, f.topic), chapters, subjects)
  {
    var mcq := IntOr(f.mcqCount, 0);
    var short := IntOr(f.shortAnswerCount, 0);
    var long := IntOr(f.longAnswerCount, 0);
    WorksheetRequest(
      f.topic, mcq, short, long,
      if Given(f.difficulty) then f.difficulty.value else "medium",
      (Flag(flags.mcq) && mcq > 0) || (Flag(flags.short) && short > 0) || (Flag(flags.long) && long > 0),
      SubjectNameOf(FindTopic(topics, f.topic), chapters, subjects))
  }

  /** Missing counts are zero and a missing difficulty is "medium"; images
      are asked for exactly when some type has its flag set and a positive
      count. */
  lemma RequestDefaults(f: FilterPanel.Filters, flags: ImageFlags, topics: seq<Topic>,
                        chapters: seq<Chapter>, subjects: seq<Subject>)
    ensures var r := Request(f, flags, topics, chapters, subjects);
            && (f.mcqCount.None? ==> r.mcqCount == 0)
            && (f.shortAnswerCount.None? ==> r.shortAnswerCount == 0)
            && (f.longAnswerCount.None? ==> r.longAnswerCount == 0)
            && (!Given(f.difficulty) ==> r.difficulty == "medium")
            && (Given(f.difficulty) ==> r.difficulty == f.difficulty.value)
            && (r.includeImages <==>
                  (Flag(flags.mcq) && r.mcqCount > 0) || (Flag(flags.short) && r.shortAnswerCount > 0)
                  || (Flag(flags.long) && r.longAnswerCount > 0))
  {
  }

  /** From the filter panel the request carries the panel's own counts and
      difficulty and never asks for images; the panel's overall count and
      its selected question types do not reach the generator at all. */
  lemma FromFilterPanel(p: FilterPanel.Panel, topics: seq<Topic>, chapters: seq<Chapter>, subjects: seq<Subject>)
    requires p.topic != "" && p.difficulty != ""
    ensures var f := FilterPanel.Generate(p).value;
            var r := Request(f, NoFlags, topics, chapters, subjects);
            && r.mcqCount == p.mcqCount && r.shortAnswerCount == p.shortAnswerCount
            && r.longAnswerCount == p.longAnswerCount
            && r.difficulty == p.difficulty && !r.includeImages
            && forall n: int, ts: seq<string> ::
                 Request(f.(questionCount := n, questionTypes := ts), NoFlags, topics, chapters, subjects) == r
  {
  }
}
