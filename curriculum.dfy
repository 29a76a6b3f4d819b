/** The nested list updates of App.tsx over subjects → folders → notes, each
    a pure function of the old list, and the search filter. Identifiers that
    the source draws from `Date.now()`, the colour it draws from
    `Math.random()` and the answer of `window.confirm` are parameters. */
module Curriculum {
  import opened Types
  import opened Seqs
  import opened Text

  /** The five colours a new subject can get. */
  const Palette: seq<string> := ["blue", "indigo", "purple", "emerald", "rose"]

  /** `Math.floor(Math.random() * 5)` always lies in 0..4. */
  type PaletteIndex = i: nat | i < 5

  function Colour(i: PaletteIndex): string
  {
    "bg-" + Palette[i] + "-500"
  }

  // ---------------------------------------------------------------- ownership

  /** Every folder names the subject it sits in, every note the folder it sits in. */
  predicate FolderWellFormed(f: Folder)
  {
    forall k :: 0 <= k < |f.notes| ==> f.notes[k].folderId == f.id
  }

  predicate SubjectWellFormed(s: Subject)
  {
    forall j :: 0 <= j < |s.folders| ==> s.folders[j].subjectId == s.id && FolderWellFormed(s.folders[j])
  }

  predicate WellFormed(subjects: seq<Subject>)
  {
    forall i :: 0 <= i < |subjects| ==> SubjectWellFormed(subjects[i])
  }

  /** The curriculum App starts with. */
  function SeedSubjects(now: string): seq<Subject>
  {
    [ Subject("1", "Computer Science 101", "bg-indigo-500",
        [Folder("f1", "1", "Lecture Notes",
          [Note("n1", "f1", "Data Structures Intro", "Arrays and Linked Lists are fundamental...", now, None, None)])]),
      Subject("2", "Modern History", "bg-emerald-500", []) ]
  }

  lemma SeedWellFormed(now: string)
    ensures WellFormed(SeedSubjects(now))
  {
  }

  /** Number of notes in a list of folders and in a whole curriculum. */
  function FolderNoteCount(folders: seq<Folder>): nat
  {
    if folders == [] then 0 else |folders[0].notes| + FolderNoteCount(folders[1..])
  }

  function TotalNotes(subjects: seq<Subject>): nat
  {
    if subjects == [] then 0 else FolderNoteCount(subjects[0].folders) + TotalNotes(subjects[1..])
  }

  /** Number of folders across the curriculum whose id is `folderId`. */
  function FoldersWithId(folders: seq<Folder>, folderId: string): nat
  {
    if folders == [] then 0 else (if folders[0].id == folderId then 1 else 0) + FoldersWithId(folders[1..], folderId)
  }

  function CountFoldersWithId(subjects: seq<Subject>, folderId: string): nat
  {
    if subjects == [] then 0
    else FoldersWithId(subjects[0].folders, folderId) + CountFoldersWithId(subjects[1..], folderId)
  }

  // ---------------------------------------------------------------- subjects

  /** The filter conditions `s => s.id !== id` and `f => f.id !== folderId`. */
  function SubjectIdIsNot(id: string): Subject -> bool
  {
    (s: Subject) => s.id != id
  }

  function FolderIdIsNot(id: string): Folder -> bool
  {
    (f: Folder) => f.id != id
  }

  /** handleAddSubject: one new subject with no folders, appended at the end. */
  function AddSubject(subjects: seq<Subject>, id: string, name: string, colour: PaletteIndex): (r: seq<Subject>)
    ensures |r| == |subjects| + 1
    ensures r[..|subjects|] == subjects
    ensures r[|subjects|].id == id && r[|subjects|].name == name && r[|subjects|].folders == []
    ensures exists c :: 0 <= c < |Palette| && r[|subjects|].color == "bg-" + Palette[c] + "-500"
  {
    subjects + [Subject(id, name, Colour(colour), [])]
  }

  /** handleDeleteSubject: when confirmed, every subject with that id goes,
      together with the folders and notes it owns; the rest keep their order. */
  function DeleteSubject(subjects: seq<Subject>, id: string, confirmed: bool): (r: seq<Subject>)
    ensures !confirmed ==> r == subjects
    ensures confirmed ==> forall s :: s in r ==> s.id != id
    ensures confirmed ==> forall s :: s in subjects && s.id != id ==> s in r
    ensures confirmed ==> forall s :: multiset(r)[s] == if s.id == id then 0 else multiset(subjects)[s]
    ensures IsSubsequence(r, subjects)
  {
    if confirmed then
      FilterIsSubsequence(SubjectIdIsNot(id), subjects);
      FilterMultiplicity(SubjectIdIsNot(id), subjects);
      Filter(SubjectIdIsNot(id), subjects)
    else
      SelfSubsequence(subjects);
      subjects
  }

  /** Adding a subject under a new id and then deleting that id restores the list. */
  lemma DeleteUndoesAddSubject(subjects: seq<Subject>, id: string, name: string, colour: PaletteIndex)
    requires forall s :: s in subjects ==> s.id != id
    ensures DeleteSubject(AddSubject(subjects, id, name, colour), id, true) == subjects
  {
    var added := subjects + [Subject(id, name, Colour(colour), [])];
    FilterAppend(SubjectIdIsNot(id), subjects, [Subject(id, name, Colour(colour), [])]);
    FilterKeepsAll(SubjectIdIsNot(id), subjects);
    assert Filter(SubjectIdIsNot(id), [Subject(id, name, Colour(colour), [])]) == [];
  }

  // ---------------------------------------------------------------- folders

  /** The `prev.map(...)` of handleCreateFolder: `folder` is appended to every
      subject whose id is `subjectId`. */
  function AppendFolder(subjects: seq<Subject>, subjectId: string, folder: Folder): (r: seq<Subject>)
    ensures |r| == |subjects|
    ensures forall i :: 0 <= i < |r| ==>
      r[i] == if subjects[i].id == subjectId then subjects[i].(folders := subjects[i].folders + [folder]) else subjects[i]
  {
    if subjects == [] then []
    else
      var s := subjects[0];
      [if s.id == subjectId then s.(folders := s.folders + [folder]) else s] + AppendFolder(subjects[1..], subjectId, folder)
  }

  /** handleCreateFolder: a new empty folder whose `subjectId` is set, at the
      end of the folders of the subjects with that id; nothing else changes. */
  function CreateFolder(subjects: seq<Subject>, subjectId: string, id: string, name: string): (r: seq<Subject>)
    ensures |r| == |subjects|
    ensures forall i :: 0 <= i < |r| && subjects[i].id != subjectId ==> r[i] == subjects[i]
    ensures forall i :: 0 <= i < |r| && subjects[i].id == subjectId ==>
      && r[i].id == subjects[i].id && r[i].name == subjects[i].name && r[i].color == subjects[i].color
      && |r[i].folders| == |subjects[i].folders| + 1
      && r[i].folders[..|subjects[i].folders|] == subjects[i].folders
      && r[i].folders[|subjects[i].folders|] == Folder(id, subjectId, name, [])
  {
    AppendFolder(subjects, subjectId, Folder(id, subjectId, name, []))
  }

  /** An unknown subject id leaves the curriculum as it was. */
  lemma {:induction false} CreateFolderUnknownSubject(subjects: seq<Subject>, subjectId: string, id: string, name: string)
    requires forall i :: 0 <= i < |subjects| ==> subjects[i].id != subjectId
    ensures CreateFolder(subjects, subjectId, id, name) == subjects
  {
    var r := CreateFolder(subjects, subjectId, id, name);
    assert forall i :: 0 <= i < |r| ==> r[i] == subjects[i];
  }

  /** The `prev.map(...)` of handleDeleteFolder: the folders of every subject
      with id `subjectId` lose those with id `folderId`. */
  function RemoveFolder(subjects: seq<Subject>, subjectId: string, folderId: string): (r: seq<Subject>)
    ensures |r| == |subjects|
    ensures forall i :: 0 <= i < |r| ==>
      r[i] == if subjects[i].id == subjectId then subjects[i].(folders := Filter(FolderIdIsNot(folderId), subjects[i].folders)) else subjects[i]
  {
    if subjects == [] then []
    else
      var s := subjects[0];
      [if s.id == subjectId then s.(folders := Filter(FolderIdIsNot(folderId), s.folders)) else s]
        + RemoveFolder(subjects[1..], subjectId, folderId)
  }

  /** handleDeleteFolder: when confirmed, the named subject loses its folders
      with that id (and their notes); a folder with the same id under another
      subject survives, and the other folders keep their order. */
  function DeleteFolder(subjects: seq<Subject>, subjectId: string, folderId: string, confirmed: bool): (r: seq<Subject>)
    ensures !confirmed ==> r == subjects
    ensures |r| == |subjects|
    ensures forall i :: 0 <= i < |r| && subjects[i].id != subjectId ==> r[i] == subjects[i]
    ensures forall i :: 0 <= i < |r| ==>
      r[i].id == subjects[i].id && r[i].name == subjects[i].name && r[i].color == subjects[i].color
    ensures confirmed ==> forall i :: 0 <= i < |r| && subjects[i].id == subjectId ==>
      && (forall f :: f in r[i].folders ==> f.id != folderId)
      && (forall f :: f in subjects[i].folders && f.id != folderId ==> f in r[i].folders)
      && (forall f :: multiset(r[i].folders)[f] == if f.id == folderId then 0 else multiset(subjects[i].folders)[f])
      && IsSubsequence(r[i].folders, subjects[i].folders)
  {
    if confirmed then
      var r := RemoveFolder(subjects, subjectId, folderId);
      forall i | 0 <= i < |r| && subjects[i].id == subjectId
        ensures IsSubsequence(r[i].folders, subjects[i].folders)
        ensures forall f :: multiset(r[i].folders)[f] == if f.id == folderId then 0 else multiset(subjects[i].folders)[f]
      {
        FilterIsSubsequence(FolderIdIsNot(folderId), subjects[i].folders);
        FilterMultiplicity(FolderIdIsNot(folderId), subjects[i].folders);
      }
      r
    else
      subjects
  }

  /** Filtering out an id that only the appended folder carries gives back
      the folders before it. */
  lemma FilterAppendedFolder(fs: seq<Folder>, nf: Folder)
    requires forall f :: f in fs ==> f.id != nf.id
    ensures Filter(FolderIdIsNot(nf.id), fs + [nf]) == fs
  {
    var p := FolderIdIsNot(nf.id);
    FilterAppend(p, fs, [nf]);
    FilterKeepsAll(p, fs);
    assert Filter(p, [nf]) == [];
  }

  /** Creating a folder under a fresh id and deleting it again restores the curriculum. */
  lemma {:induction false} DeleteUndoesCreateFolder(subjects: seq<Subject>, subjectId: string, id: string, name: string)
    requires forall i, f :: 0 <= i < |subjects| && subjects[i].id == subjectId && f in subjects[i].folders ==> f.id != id
    ensures DeleteFolder(CreateFolder(subjects, subjectId, id, name), subjectId, id, true) == subjects
  {
    var c := CreateFolder(subjects, subjectId, id, name);
    var r := RemoveFolder(c, subjectId, id);
    forall i | 0 <= i < |subjects| ensures r[i] == subjects[i]
    {
      if subjects[i].id == subjectId {
        var fs := subjects[i].folders;
        assert c[i].folders == fs + [Folder(id, subjectId, name, [])];
        FilterAppendedFolder(fs, Folder(id, subjectId, name, []));
      }
    }
    assert r == subjects;
  }

  // ---------------------------------------------------------------- notes

  /** Notes of one folder with the update merged into each note whose id matches. */
  function MergeIntoNotes(notes: seq<Note>, noteId: string, p: NotePatch): (r: seq<Note>)
    ensures |r| == |notes|
    ensures forall k :: 0 <= k < |r| ==> r[k] == if notes[k].id == noteId then Merge(notes[k], p) else notes[k]
  {
    if notes == [] then []
    else [if notes[0].id == noteId then Merge(notes[0], p) else notes[0]] + MergeIntoNotes(notes[1..], noteId, p)
  }

  function MergeIntoFolders(folders: seq<Folder>, noteId: string, p: NotePatch): (r: seq<Folder>)
    ensures |r| == |folders|
    ensures forall j :: 0 <= j < |r| ==> r[j] == folders[j].(notes := MergeIntoNotes(folders[j].notes, noteId, p))
  {
    if folders == [] then []
    else [folders[0].(notes := MergeIntoNotes(folders[0].notes, noteId, p))] + MergeIntoFolders(folders[1..], noteId, p)
  }

  function MergeIntoSubjects(subjects: seq<Subject>, noteId: string, p: NotePatch): (r: seq<Subject>)
    ensures |r| == |subjects|
    ensures forall i :: 0 <= i < |r| ==> r[i] == subjects[i].(folders := MergeIntoFolders(subjects[i].folders, noteId, p))
  {
    if subjects == [] then []
    else [subjects[0].(folders := MergeIntoFolders(subjects[0].folders, noteId, p))] + MergeIntoSubjects(subjects[1..], noteId, p)
  }

  /** handleUpdateNote: the partial update is merged into every note with
      that id, wherever it sits; no subject, folder or note is added, removed
      or moved, and every other note is untouched. */
  function UpdateNote(subjects: seq<Subject>, noteId: string, p: NotePatch): (r: seq<Subject>)
    ensures |r| == |subjects|
    ensures forall i :: 0 <= i < |r| ==>
      && r[i].id == subjects[i].id && r[i].name == subjects[i].name && r[i].color == subjects[i].color
      && |r[i].folders| == |subjects[i].folders|
    ensures forall i, j :: 0 <= i < |r| && 0 <= j < |r[i].folders| ==>
      && r[i].folders[j].id == subjects[i].folders[j].id
      && r[i].folders[j].subjectId == subjects[i].folders[j].subjectId
      && r[i].folders[j].name == subjects[i].folders[j].name
      && |r[i].folders[j].notes| == |subjects[i].folders[j].notes|
    ensures forall i, j, k :: 0 <= i < |r| && 0 <= j < |r[i].folders| && 0 <= k < |r[i].folders[j].notes| ==>
      r[i].folders[j].notes[k] ==
        (var n := subjects[i].folders[j].notes[k]; if n.id == noteId then Merge(n, p) else n)
  {
    MergeIntoSubjects(subjects, noteId, p)
  }

  lemma NotesMergeIdempotent(notes: seq<Note>, noteId: string, p: NotePatch)
    ensures MergeIntoNotes(MergeIntoNotes(notes, noteId, p), noteId, p) == MergeIntoNotes(notes, noteId, p)
  {
    var once := MergeIntoNotes(notes, noteId, p);
    var twice := MergeIntoNotes(once, noteId, p);
    forall k | 0 <= k < |notes| ensures twice[k] == once[k]
    {
      MergeIdempotent(notes[k], p);
    }
  }

  lemma FoldersMergeIdempotent(folders: seq<Folder>, noteId: string, p: NotePatch)
    ensures MergeIntoFolders(MergeIntoFolders(folders, noteId, p), noteId, p) == MergeIntoFolders(folders, noteId, p)
  {
    var once := MergeIntoFolders(folders, noteId, p);
    var twice := MergeIntoFolders(once, noteId, p);
    forall j | 0 <= j < |folders| ensures twice[j] == once[j]
    {
      NotesMergeIdempotent(folders[j].notes, noteId, p);
    }
  }

  /** Applying the same update twice equals applying it once. A patch that
      renames the note leaves nothing for the second pass to match. */
  lemma UpdateNoteIdempotent(subjects: seq<Subject>, noteId: string, p: NotePatch)
    ensures UpdateNote(UpdateNote(subjects, noteId, p), noteId, p) == UpdateNote(subjects, noteId, p)
  {
    var once := MergeIntoSubjects(subjects, noteId, p);
    var twice := MergeIntoSubjects(once, noteId, p);
    forall i | 0 <= i < |subjects| ensures twice[i] == once[i]
    {
      FoldersMergeIdempotent(subjects[i].folders, noteId, p);
    }
    assert twice == once;
  }

  /** Updating never changes how many notes there are. */
  lemma {:induction false} UpdateNoteKeepsTotal(subjects: seq<Subject>, noteId: string, p: NotePatch)
    ensures TotalNotes(UpdateNote(subjects, noteId, p)) == TotalNotes(subjects)
  {
    if subjects != [] {
      UpdateNoteKeepsTotal(subjects[1..], noteId, p);
      assert UpdateNote(subjects, noteId, p)[1..] == UpdateNote(subjects[1..], noteId, p);
      MergeKeepsFolderNoteCount(subjects[0].folders, noteId, p);
    }
  }

  lemma {:induction false} MergeKeepsFolderNoteCount(folders: seq<Folder>, noteId: string, p: NotePatch)
    ensures FolderNoteCount(MergeIntoFolders(folders, noteId, p)) == FolderNoteCount(folders)
  {
    if folders != [] {
      MergeKeepsFolderNoteCount(folders[1..], noteId, p);
      assert MergeIntoFolders(folders, noteId, p)[1..] == MergeIntoFolders(folders[1..], noteId, p);
    }
  }

  /** The note handleCreateNote makes: titled 'Untitled Note', empty, in the
      folder it is created for, with no summary and no flashcards. */
  function NewNote(id: string, folderId: string, createdAt: string): (n: Note)
    ensures n.id == id && n.folderId == folderId && n.title == "Untitled Note" && n.content == ""
    ensures n.createdAt == createdAt && n.summary.None? && n.flashcards.None?
  {
    Note(id, folderId, "Untitled Note", "", createdAt, None, None)
  }

  function AppendNoteToFolders(folders: seq<Folder>, folderId: string, note: Note): (r: seq<Folder>)
    ensures |r| == |folders|
    ensures forall j :: 0 <= j < |r| ==>
      r[j] == if folders[j].id == folderId then folders[j].(notes := folders[j].notes + [note]) else folders[j]
  {
    if folders == [] then []
    else
      var f := folders[0];
      [if f.id == folderId then f.(notes := f.notes + [note]) else f] + AppendNoteToFolders(folders[1..], folderId, note)
  }

  function AppendNote(subjects: seq<Subject>, folderId: string, note: Note): (r: seq<Subject>)
    ensures |r| == |subjects|
    ensures forall i :: 0 <= i < |r| ==> r[i] == subjects[i].(folders := AppendNoteToFolders(subjects[i].folders, folderId, note))
  {
    if subjects == [] then []
    else [subjects[0].(folders := AppendNoteToFolders(subjects[0].folders, folderId, note))] + AppendNote(subjects[1..], folderId, note)
  }

  /** handleCreateNote: the new note is appended to every folder with that
      id, in whichever subject; subjects and other folders are untouched. */
  function CreateNote(subjects: seq<Subject>, folderId: string, id: string, createdAt: string): (r: seq<Subject>)
    ensures |r| == |subjects|
    ensures forall i :: 0 <= i < |r| ==>
      && r[i].id == subjects[i].id && r[i].name == subjects[i].name && r[i].color == subjects[i].color
      && |r[i].folders| == |subjects[i].folders|
    ensures forall i, j :: 0 <= i < |r| && 0 <= j < |r[i].folders| ==>
      var f := subjects[i].folders[j];
      r[i].folders[j] == if f.id == folderId then f.(notes := f.notes + [NewNote(id, folderId, createdAt)]) else f
  {
    AppendNote(subjects, folderId, NewNote(id, folderId, createdAt))
  }

  /** Creating a note adds exactly one note per folder with that id. */
  lemma {:induction false} CreateNoteCount(subjects: seq<Subject>, folderId: string, id: string, createdAt: string)
    ensures TotalNotes(CreateNote(subjects, folderId, id, createdAt))
         == TotalNotes(subjects) + CountFoldersWithId(subjects, folderId)
  {
    if subjects != [] {
      var n := NewNote(id, folderId, createdAt);
      CreateNoteCount(subjects[1..], folderId, id, createdAt);
      assert CreateNote(subjects, folderId, id, createdAt)[1..] == CreateNote(subjects[1..], folderId, id, createdAt);
      AppendNoteFolderCount(subjects[0].folders, folderId, n);
    }
  }

  lemma {:induction false} AppendNoteFolderCount(folders: seq<Folder>, folderId: string, note: Note)
    ensures FolderNoteCount(AppendNoteToFolders(folders, folderId, note))
         == FolderNoteCount(folders) + FoldersWithId(folders, folderId)
  {
    if folders != [] {
      AppendNoteFolderCount(folders[1..], folderId, note);
      assert AppendNoteToFolders(folders, folderId, note)[1..] == AppendNoteToFolders(folders[1..], folderId, note);
    }
  }

  // ---------------------------------------------------------------- ownership is kept

  /** Every operation that creates or removes keeps parent ids right, because
      creation stamps the new child with its parent's id. */
  lemma AddSubjectKeepsWellFormed(subjects: seq<Subject>, id: string, name: string, colour: PaletteIndex)
    requires WellFormed(subjects)
    ensures WellFormed(AddSubject(subjects, id, name, colour))
  {
  }

  lemma DeleteSubjectKeepsWellFormed(subjects: seq<Subject>, id: string, confirmed: bool)
    requires WellFormed(subjects)
    ensures WellFormed(DeleteSubject(subjects, id, confirmed))
  {
  }

  lemma CreateFolderKeepsWellFormed(subjects: seq<Subject>, subjectId: string, id: string, name: string)
    requires WellFormed(subjects)
    ensures WellFormed(CreateFolder(subjects, subjectId, id, name))
  {
    var r := CreateFolder(subjects, subjectId, id, name);
    forall i | 0 <= i < |r| ensures SubjectWellFormed(r[i])
    {
      if subjects[i].id == subjectId {
        assert r[i].folders == subjects[i].folders + [Folder(id, subjectId, name, [])];
      }
    }
  }

  lemma DeleteFolderKeepsWellFormed(subjects: seq<Subject>, subjectId: string, folderId: string, confirmed: bool)
    requires WellFormed(subjects)
    ensures WellFormed(DeleteFolder(subjects, subjectId, folderId, confirmed))
  {
    var r := DeleteFolder(subjects, subjectId, folderId, confirmed);
    forall i | 0 <= i < |r| ensures SubjectWellFormed(r[i])
    {
      forall j | 0 <= j < |r[i].folders|
        ensures r[i].folders[j].subjectId == r[i].id && FolderWellFormed(r[i].folders[j])
      {
        assert r[i].folders[j] in subjects[i].folders;
      }
    }
  }

  lemma CreateNoteKeepsWellFormed(subjects: seq<Subject>, folderId: string, id: string, createdAt: string)
    requires WellFormed(subjects)
    ensures WellFormed(CreateNote(subjects, folderId, id, createdAt))
  {
    var r := CreateNote(subjects, folderId, id, createdAt);
    forall i, j | 0 <= i < |r| && 0 <= j < |r[i].folders|
      ensures r[i].folders[j].subjectId == r[i].id && FolderWellFormed(r[i].folders[j])
    {
      var f := subjects[i].folders[j];
      assert SubjectWellFormed(subjects[i]);
      if f.id == folderId {
        assert r[i].folders[j].notes == f.notes + [NewNote(id, folderId, createdAt)];
      }
    }
  }

  /** An update that leaves `folderId` alone keeps every note in its folder. */
  lemma UpdateNoteKeepsWellFormed(subjects: seq<Subject>, noteId: string, p: NotePatch)
    requires WellFormed(subjects)
    requires p.folderId.None?
    ensures WellFormed(UpdateNote(subjects, noteId, p))
  {
    var r := UpdateNote(subjects, noteId, p);
    forall i, j | 0 <= i < |r| && 0 <= j < |r[i].folders|
      ensures r[i].folders[j].subjectId == r[i].id && FolderWellFormed(r[i].folders[j])
    {
      assert SubjectWellFormed(subjects[i]);
      assert FolderWellFormed(subjects[i].folders[j]);
    }
  }

  // ---------------------------------------------------------------- search

  /** The search test of `filteredSubjects`: the lowercased query occurs in the
      lowercased subject name or in the lowercased name of one of its folders. */
  predicate MatchesQuery(s: Subject, query: string)
    ensures query == "" ==> MatchesQuery(s, query)
  {
    IncludesEmpty(Lower(s.name));
    Includes(Lower(s.name), Lower(query))
    || exists j :: 0 <= j < |s.folders| && Includes(Lower(s.folders[j].name), Lower(query))
  }

  function Matching(query: string): Subject -> bool
  {
    (s: Subject) => MatchesQuery(s, query)
  }

  /** filteredSubjects: the subjects that match, in their original order. */
  function FilterSubjects(subjects: seq<Subject>, query: string): (r: seq<Subject>)
    ensures forall s :: s in r <==> s in subjects && MatchesQuery(s, query)
    ensures forall s :: multiset(r)[s] == if MatchesQuery(s, query) then multiset(subjects)[s] else 0
    ensures IsSubsequence(r, subjects)
  {
    FilterIsSubsequence(Matching(query), subjects);
    FilterMultiplicity(Matching(query), subjects);
    Filter(Matching(query), subjects)
  }

  /** An empty search keeps every subject. */
  lemma EmptyQueryKeepsAll(subjects: seq<Subject>)
    ensures FilterSubjects(subjects, "") == subjects
  {
    forall i | 0 <= i < |subjects| ensures MatchesQuery(subjects[i], "")
    {
      IncludesEmpty(Lower(subjects[i].name));
    }
    FilterKeepsAll(Matching(""), subjects);
  }

  /** The search ignores the case of the query. */
  lemma QueryCaseInsensitive(subjects: seq<Subject>, query: string)
    ensures FilterSubjects(subjects, Lower(query)) == FilterSubjects(subjects, query)
  {
    LowerIdempotent(query);
    FilterCongruent(Matching(Lower(query)), Matching(query), subjects);
  }
}
