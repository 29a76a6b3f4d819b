/** The entities of the study assistant (types.ts), as immutable values.
    Subjects own their folders and folders own their notes by containment;
    the parent ids a folder or note carries are plain strings. */
module Types {

  datatype Option<+T> = None | Some(value: T)

  /** A study subject: id, display name, colour class, and the folders it owns. */
  datatype Subject = Subject(id: string, name: string, color: string, folders: seq<Folder>)

  /** A folder inside a subject; `subjectId` names its parent. */
  datatype Folder = Folder(id: string, subjectId: string, name: string, notes: seq<Note>)

  /** A note inside a folder; `folderId` names its parent. The AI summary and
      the flashcard deck are optional fields. */
  datatype Note = Note(
    id: string,
    folderId: string,
    title: string,
    content: string,
    createdAt: string,
    summary: Option<string>,
    flashcards: Option<seq<Flashcard>>)

  /** A flashcard is exactly a question and an answer. */
  datatype Flashcard = Flashcard(question: string, answer: string)

  /** The three event categories; no other value is representable. */
  datatype EventType = Study | Exam | Deadline

  /** A calendar event; the related subject is optional. */
  datatype StudyEvent = StudyEvent(
    id: string,
    title: string,
    date: string,
    kind: EventType,
    subjectId: Option<string>)

  /** The author of a chat message: the student or the model. */
  datatype Role = User | Model

  datatype ChatMessage = ChatMessage(role: Role, text: string)

  /** A signed-in user as the login form hands it over. */
  datatype Account = Account(name: string, email: string)

  /** The persisted display preferences. */
  datatype Settings = Settings(darkMode: bool, compactView: bool)

  /** A `Partial<Note>`: a field that is `None` is absent from the update. */
  datatype NotePatch = NotePatch(
    id: Option<string>,
    folderId: Option<string>,
    title: Option<string>,
    content: Option<string>,
    createdAt: Option<string>,
    summary: Option<string>,
    flashcards: Option<seq<Flashcard>>)

  function Pick<T>(update: Option<T>, current: T): T
  {
    match update
    case Some(v) => v
    case None => current
  }

  /** The object spread `{ ...n, ...updates }`: every field present in the
      patch replaces the note's field, every absent field is kept. */
  function Merge(n: Note, p: NotePatch): (r: Note)
    ensures p.id.Some? ==> r.id == p.id.value
    ensures p.id.None? ==> r.id == n.id
    ensures p.folderId.Some? ==> r.folderId == p.folderId.value
    ensures p.folderId.None? ==> r.folderId == n.folderId
    ensures p.title.Some? ==> r.title == p.title.value
    ensures p.title.None? ==> r.title == n.title
    ensures p.content.Some? ==> r.content == p.content.value
    ensures p.content.None? ==> r.content == n.content
    ensures p.createdAt.Some? ==> r.createdAt == p.createdAt.value
    ensures p.createdAt.None? ==> r.createdAt == n.createdAt
    ensures p.summary.Some? ==> r.summary == p.summary
    ensures p.summary.None? ==> r.summary == n.summary
    ensures p.flashcards.Some? ==> r.flashcards == p.flashcards
    ensures p.flashcards.None? ==> r.flashcards == n.flashcards
  {
    Note(
      Pick(p.id, n.id),
      Pick(p.folderId, n.folderId),
      Pick(p.title, n.title),
      Pick(p.content, n.content),
      Pick(p.createdAt, n.createdAt),
      if p.summary.Some? then p.summary else n.summary,
      if p.flashcards.Some? then p.flashcards else n.flashcards)
  }

  const EmptyPatch := NotePatch(None, None, None, None, None, None, None)

  /** Applying the same update twice is the same as applying it once, and an
      empty update changes nothing. */
  lemma MergeIdempotent(n: Note, p: NotePatch)
    ensures Merge(Merge(n, p), p) == Merge(n, p)
    ensures Merge(n, EmptyPatch) == n
  {
  }
}
