/** The worksheet endpoint end to end: catalogue lookups, prompt and model
    choice, the model call, output recovery, image resolution and the save
    loop, with the error each stage raises. The database, the model call,
    the JSON parser and the image call are parameters. */
module Worksheet {
  import opened Wrappers
  import opened JsonValue
  import opened LlmService
  import opened Prompt
  import opened Recovery
  import opened Images
  import opened Normalise

  datatype Subject = Subject(id: string, name: string)
  datatype Chapter = Chapter(id: string, subjectId: string, name: string)
  datatype Topic = Topic(id: string, chapterId: string, name: string, subtopics: seq<string>)

  /** The rows the endpoint reads. */
  datatype Catalog = Catalog(subjects: seq<Subject>, chapters: seq<Chapter>, topics: seq<Topic>)

  function FindTopic(ts: seq<Topic>, id: string): (r: Option<Topic>)
    ensures r.Some? ==> r.value in ts && r.value.id == id
    ensures r.None? ==> forall t :: t in ts ==> t.id != id
  {
    if |ts| == 0 then None else if ts[0].id == id then Some(ts[0]) else FindTopic(ts[1..], id)
  }

  function FindChapter(cs: seq<Chapter>, id: string): (r: Option<Chapter>)
    ensures r.Some? ==> r.value in cs && r.value.id == id
    ensures r.None? ==> forall c :: c in cs ==> c.id != id
  {
    if |cs| == 0 then None else if cs[0].id == id then Some(cs[0]) else FindChapter(cs[1..], id)
  }

  function FindSubject(ss: seq<Subject>, id: string): (r: Option<Subject>)
    ensures r.Some? ==> r.value in ss && r.value.id == id
    ensures r.None? ==> forall s :: s in ss ==> s.id != id
  {
    if |ss| == 0 then None else if ss[0].id == id then Some(ss[0]) else FindSubject(ss[1..], id)
  }

  /** What the chat-completions call gives back. */
  datatype LlmReply =
    | Reply(content: Json)     // status 200 with a message content, of any JSON type
    | HttpError(body: string)  // any other status
    | BadEnvelope              // status 200 without `choices[0].message.content`

  /** The errors the endpoint answers with. */
  datatype WorksheetError =
    | TopicNotFound
    | ChapterNotFound
    | SubjectNotFound
    | UpstreamFailed(body: string)
    | Unparseable(detail: string)
    | Aborted
    | NoValidQuestions

  function StatusCode(e: WorksheetError): int {
    match e
    case TopicNotFound => 404
    case ChapterNotFound => 404
    case SubjectNotFound => 404
    case _ => 500
  }

  /** The error detail, when it is fixed text. `Aborted` carries the text of an
      arbitrary Python exception, which the model does not track. */
  function Detail(e: WorksheetError): Option<string> {
    match e
    case TopicNotFound => Some("Topic not found")
    case ChapterNotFound => Some("Chapter not found")
    case SubjectNotFound => Some("Subject not found")
    case UpstreamFailed(body) => Some("Error generating questions: " + body)
    case Unparseable(detail) => Some(detail)
    case Aborted => None
    case NoValidQuestions => Some("Failed to generate any valid questions. Please check the LLM response format.")
  }

  /** The three messages the model is sent: model id, system prompt, prompt. */
  datatype LlmCall = LlmCall(model: string, system: string, prompt: string)

  /** The context the catalogue lookups produce. */
  datatype Context = Context(subjectName: string, chapter: Chapter, topic: Topic)

  function Lookup(req: WorksheetRequest, cat: Catalog): (r: Result<Context, WorksheetError>)
    ensures r.Failure? ==> StatusCode(r.error) == 404
  {
    match FindTopic(cat.topics, req.topicId)
    case None => Failure(TopicNotFound)
    case Some(topic) =>
      match FindChapter(cat.chapters, topic.chapterId)
      case None => Failure(ChapterNotFound)
      case Some(chapter) =>
        match FindSubject(cat.subjects, chapter.subjectId)
        case None => Failure(SubjectNotFound)
        case Some(subject) =>
          Success(Context(EffectiveSubjectName(req.subjectName, subject.name), chapter, topic))
  }

  function CallFor(req: WorksheetRequest, ctx: Context): LlmCall {
    var name := ctx.subjectName;
    LlmCall(ModelForSubject(name), SystemPrompt(name),
            BuildPrompt(name, ctx.chapter.name, ctx.topic.name, ctx.topic.subtopics, req))
  }

  /** The model's records after recovery, or the error raised on the way. */
  function Records(reply: LlmReply, parse: string -> Option<Json>): Result<seq<Json>, WorksheetError> {
    match reply
    case HttpError(body) => Failure(UpstreamFailed(body))
    case BadEnvelope => Failure(Aborted)
    case Reply(content) =>
      match RecoverContent(content, parse)
      case Failure(detail) => Failure(Unparseable(detail))
      case Success(v) =>
        match Iterate(v)
        case None => Failure(Aborted)
        case Some(records) => Success(records)
  }

  /** `POST /api/generate-worksheet`. */
  function GenerateWorksheet(req: WorksheetRequest, cat: Catalog,
                             llm: LlmCall -> LlmReply,
                             parse: string -> Option<Json>,
                             gen: (Json, string) -> Option<string>): (r: Result<seq<SavedQuestion>, WorksheetError>)
    ensures r.Success? ==> |r.value| > 0
  {
    var ctx :- Lookup(req, cat);
    var records :- Records(llm(CallFor(req, ctx)), parse);
    match ResolveAll(records, req.includeImages, ctx.subjectName, gen)
    case Failure(_) => Failure(Aborted)
    case Success(resolved) =>
      var saved := SaveAll(resolved);
      if |saved| == 0 then Failure(NoValidQuestions) else Success(saved)
  }

  // ---------------------------------------------------------------------
  // Properties

  /** A missing topic, chapter or subject is reported before the model is
      called, whatever it would have answered. */
  lemma LookupFirst(req: WorksheetRequest, cat: Catalog,
                    llm: LlmCall -> LlmReply, parse: string -> Option<Json>, gen: (Json, string) -> Option<string>)
    requires FindTopic(cat.topics, req.topicId).None?
    ensures GenerateWorksheet(req, cat, llm, parse, gen) == Failure(TopicNotFound)
  {
  }

  /** The model call is routed by the effective subject name: the request's
      name when non-empty, otherwise the stored subject's. */
  lemma CallIsRouted(req: WorksheetRequest, cat: Catalog)
    requires Lookup(req, cat).Success?
    ensures var ctx := Lookup(req, cat).value;
            var subject := FindSubject(cat.subjects, ctx.chapter.subjectId).value;
            var name := if req.subjectName.Some? && |req.subjectName.value| > 0 then req.subjectName.value
                        else subject.name;
            && ctx.subjectName == name
            && CallFor(req, ctx).model == ModelForSubject(name)
            && CallFor(req, ctx).system == PromptIntro + Specialisation(RoutingClass(name)) + PromptOutro
  {
  }

  /** With images off the image service is never consulted. */
  lemma ImagesOffIgnoresGenerator(req: WorksheetRequest, cat: Catalog, llm: LlmCall -> LlmReply,
                                  parse: string -> Option<Json>,
                                  gen1: (Json, string) -> Option<string>, gen2: (Json, string) -> Option<string>)
    requires !req.includeImages
    ensures GenerateWorksheet(req, cat, llm, parse, gen1) == GenerateWorksheet(req, cat, llm, parse, gen2)
  {
  }

  /** A successful run saves exactly the records with a usable text, in the
      order the model gave them. */
  lemma SuccessSavesKeptRecords(req: WorksheetRequest, cat: Catalog, llm: LlmCall -> LlmReply,
                                parse: string -> Option<Json>, gen: (Json, string) -> Option<string>)
    requires GenerateWorksheet(req, cat, llm, parse, gen).Success?
    ensures var ctx := Lookup(req, cat).value;
            var records := Records(llm(CallFor(req, ctx)), parse).value;
            var resolved := ResolveAll(records, req.includeImages, ctx.subjectName, gen).value;
            var out := GenerateWorksheet(req, cat, llm, parse, gen).value;
            && |resolved| == |records|
            && |out| == |KeptIndices(resolved)|
            && forall j :: 0 <= j < |out| ==> Some(out[j]) == NormaliseRecord(resolved[KeptIndices(resolved)[j]])
  {
  }

  /** The request fails with "no valid questions" exactly when recovery and
      image resolution went through but no record has a usable text. */
  lemma NoValidQuestionsIff(req: WorksheetRequest, cat: Catalog, llm: LlmCall -> LlmReply,
                            parse: string -> Option<Json>, gen: (Json, string) -> Option<string>)
    requires Lookup(req, cat).Success?
    requires Records(llm(CallFor(req, Lookup(req, cat).value)), parse).Success?
    requires ResolveAll(Records(llm(CallFor(req, Lookup(req, cat).value)), parse).value,
                        req.includeImages, Lookup(req, cat).value.subjectName, gen).Success?
    ensures var ctx := Lookup(req, cat).value;
            var records := Records(llm(CallFor(req, ctx)), parse).value;
            var resolved := ResolveAll(records, req.includeImages, ctx.subjectName, gen).value;
            GenerateWorksheet(req, cat, llm, parse, gen) == Failure(NoValidQuestions)
            <==> forall i :: 0 <= i < |resolved| ==> NormaliseRecord(resolved[i]).None?
  {
    var ctx := Lookup(req, cat).value;
    var records := Records(llm(CallFor(req, ctx)), parse).value;
    var resolved := ResolveAll(records, req.includeImages, ctx.subjectName, gen).value;
    SaveAllEmpty(resolved);
  }
}
