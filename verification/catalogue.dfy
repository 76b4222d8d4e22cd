/** The catalogue records the pages fetch (topics, chapters, subjects) and
    the lookups the pages make in them: `Array.prototype.find` by id, the
    topic title with its fallback, and the topic → chapter → subject chain
    that gives the subject name sent with a request, and the `||` defaults
    the pages apply to optional filter fields. The fetched lists are inputs. */
module Catalogue {
  import opened Wrappers

  datatype Topic = Topic(id: string, name: string, chapterId: string)
  datatype Chapter = Chapter(id: string, name: string, subjectId: string)
  datatype Subject = Subject(id: string, name: string)

  /** `find(x => key(x) === id)`: the index of the first match. */
  function FirstWith<T>(xs: seq<T>, key: T -> string, id: string): (r: Option<nat>)
    ensures r.Some? ==> r.value < |xs| && key(xs[r.value]) == id
                        && forall j :: 0 <= j < r.value ==> key(xs[j]) != id
    ensures r.None? <==> forall j :: 0 <= j < |xs| ==> key(xs[j]) != id
  {
    if |xs| == 0 then None
    else if key(xs[0]) == id then Some(0)
    else match FirstWith(xs[1..], key, id)
      case Some(k) => Some(k + 1)
      case None => None
  }

  function TopicId(t: Topic): string { t.id }
  function ChapterId(c: Chapter): string { c.id }
  function SubjectId(s: Subject): string { s.id }

  function FindTopic(ts: seq<Topic>, id: string): (r: Option<Topic>)
    ensures r.Some? ==> r.value in ts && r.value.id == id
    ensures r.None? <==> forall j :: 0 <= j < |ts| ==> ts[j].id != id
  {
    match FirstWith(ts, TopicId, id)
    case Some(k) => Some(ts[k])
    case None => None
  }

  function FindChapter(cs: seq<Chapter>, id: string): (r: Option<Chapter>)
    ensures r.Some? ==> r.value in cs && r.value.id == id
    ensures r.None? <==> forall j :: 0 <= j < |cs| ==> cs[j].id != id
  {
    match FirstWith(cs, ChapterId, id)
    case Some(k) => Some(cs[k])
    case None => None
  }

  function FindSubject(ss: seq<Subject>, id: string): (r: Option<Subject>)
    ensures r.Some? ==> r.value in ss && r.value.id == id
    ensures r.None? <==> forall j :: 0 <= j < |ss| ==> ss[j].id != id
  {
    match FirstWith(ss, SubjectId, id)
    case Some(k) => Some(ss[k])
    case None => None
  }

  /** `found?.name || fallback`: the found name unless it is missing or
      empty. */
  function NameOr(found: Option<string>, fallback: string): (r: string)
    ensures found.Some? && found.value != "" ==> r == found.value
    ensures found.None? || found.value == "" ==> r == fallback
  {
    if found.Some? && found.value != "" then found.value else fallback
  }

  function TopicName(t: Option<Topic>): Option<string> {
    if t.Some? then Some(t.value.name) else None
  }

  /** A page's title: the selected topic's name, or the page's fallback when
      no topic has the id or the first one that does has an empty name. */
  function PageTitle(topics: seq<Topic>, id: string, fallback: string): (r: string)
    requires fallback != ""
    ensures r != ""
    ensures (forall j :: 0 <= j < |topics| ==> topics[j].id != id) ==> r == fallback
    ensures r != fallback ==> exists j :: 0 <= j < |topics| && topics[j].id == id && topics[j].name == r
  {
    NameOr(TopicName(FindTopic(topics, id)), fallback)
  }

  /** The subject name of the selected topic: the topic's chapter is looked up
      among `chapters`, then the chapter's subject among `subjects`; the name
      stays empty unless both are found. */
  function SubjectNameOf(topic: Option<Topic>, chapters: seq<Chapter>, subjects: seq<Subject>): (r: string)
    ensures r != "" ==> topic.Some?
                        && (exists c, s :: c in chapters && s in subjects && c.id == topic.value.chapterId
                                           && s.id == c.subjectId && s.name == r)
  {
    if topic.None? then ""
    else match FindChapter(chapters, topic.value.chapterId)
      case None => ""
      case Some(c) =>
        match FindSubject(subjects, c.subjectId)
        case None => ""
        case Some(s) => s.name
  }

  /** When every link exists once, the chain yields that subject's name. */
  lemma SubjectNameFound(t: Topic, c: Chapter, s: Subject, chapters: seq<Chapter>, subjects: seq<Subject>)
    requires c in chapters && c.id == t.chapterId
    requires forall j :: 0 <= j < |chapters| && chapters[j].id == t.chapterId ==> chapters[j] == c
    requires s in subjects && s.id == c.subjectId
    requires forall j :: 0 <= j < |subjects| && subjects[j].id == c.subjectId ==> subjects[j] == s
    ensures SubjectNameOf(Some(t), chapters, subjects) == s.name
  {
  }

  /** No topic, or a topic whose chapter is not in the list, gives no name. */
  lemma SubjectNameMissing(topic: Option<Topic>, chapters: seq<Chapter>, subjects: seq<Subject>)
    requires topic.None? || forall j :: 0 <= j < |chapters| ==> chapters[j].id != topic.value.chapterId
    ensures SubjectNameOf(topic, chapters, subjects) == ""
  {
  }

  // ---------------------------------------------------------------------
  // Filter defaults

  /** `x || d` for an optional number: a missing or zero value gives `d`. */
  function IntOr(x: Option<int>, d: int): (r: int)
    ensures x.Some? && x.value != 0 ==> r == x.value
    ensures x.None? || x.value == 0 ==> r == d
  {
    if x.Some? && x.value != 0 then x.value else d
  }

  /** An optional flag is set only when present and true. */
  predicate Flag(x: Option<bool>) {
    x.Some? && x.value
  }

  /** An optional string counts only when present and non-empty. */
  predicate Given(x: Option<string>) {
    x.Some? && x.value != ""
  }
}
