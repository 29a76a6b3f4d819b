/** The state of the App component (App.tsx) and its handlers. Each React
    setter becomes a field assignment; the browser's local storage is an
    abstract map from key to stored value, so serialisation is not modelled. */
module App {
  import opened Types
  import Curriculum
  import Seqs

  const UserKey := "lumina_user"
  const EventsKey := "lumina_events"
  const SettingsKey := "lumina_settings"

  /** What can sit under one storage key. */
  datatype Stored = StoredUser(account: Account) | StoredEvents(events: seq<StudyEvent>) | StoredSettings(settings: Settings)

  datatype Tab = DashboardTab | SubjectsTab | CalendarTab | ChatTab | SettingsTab

  /** What the dashboard's onOpenSubject does with the id it is handed. */
  datatype Route = ShowCalendar | ExpandSubject(subjectId: string)

  /** onOpenSubject: the literal 'calendar' opens the calendar, any other id
      expands that subject in the curriculum tab. */
  function RouteOf(id: string): (r: Route)
    ensures r == ShowCalendar <==> id == "calendar"
    ensures r.ExpandSubject? ==> r.subjectId == id
  {
    if id == "calendar" then ShowCalendar else ExpandSubject(id)
  }

  /** What the startup effect reads back: a stored value of the right kind
      replaces the current one, an absent key leaves it. */
  function RestoredUser(storage: map<string, Stored>, current: Option<Account>): (r: Option<Account>)
    ensures UserKey !in storage ==> r == current
    ensures r == current || (UserKey in storage && r.Some? && storage[UserKey] == StoredUser(r.value))
  {
    if UserKey in storage && storage[UserKey].StoredUser? then Some(storage[UserKey].account) else current
  }

  function RestoredEvents(storage: map<string, Stored>, current: seq<StudyEvent>): (r: seq<StudyEvent>)
    ensures EventsKey !in storage ==> r == current
    ensures r == current || (EventsKey in storage && storage[EventsKey] == StoredEvents(r))
  {
    if EventsKey in storage && storage[EventsKey].StoredEvents? then storage[EventsKey].events else current
  }

  function RestoredSettings(storage: map<string, Stored>, current: Settings): (r: Settings)
    ensures SettingsKey !in storage ==> r == current
    ensures r == current || (SettingsKey in storage && storage[SettingsKey] == StoredSettings(r))
  {
    if SettingsKey in storage && storage[SettingsKey].StoredSettings? then storage[SettingsKey].settings else current
  }

  /** A login, a logout, saved settings and saved events all survive a reload,
      and writing one key never disturbs what the others restore. */
  lemma PersistenceRoundTrips(storage: map<string, Stored>, a: Account, s: Settings, evs: seq<StudyEvent>,
                              u: Option<Account>, cur: Settings, es: seq<StudyEvent>)
    ensures RestoredUser(storage[UserKey := StoredUser(a)], u) == Some(a)
    ensures RestoredUser(storage - {UserKey}, u) == u
    ensures RestoredSettings(storage[SettingsKey := StoredSettings(s)], cur) == s
    ensures RestoredEvents(storage[EventsKey := StoredEvents(evs)], es) == evs
    ensures RestoredSettings(storage[UserKey := StoredUser(a)], cur) == RestoredSettings(storage, cur)
    ensures RestoredEvents(storage[UserKey := StoredUser(a)], es) == RestoredEvents(storage, es)
    ensures RestoredUser(storage[SettingsKey := StoredSettings(s)], u) == RestoredUser(storage, u)
    ensures RestoredEvents(storage[SettingsKey := StoredSettings(s)], es) == RestoredEvents(storage, es)
    ensures RestoredUser(storage[EventsKey := StoredEvents(evs)], u) == RestoredUser(storage, u)
    ensures RestoredSettings(storage[EventsKey := StoredEvents(evs)], cur) == RestoredSettings(storage, cur)
    ensures RestoredSettings(storage - {UserKey}, cur) == RestoredSettings(storage, cur)
    ensures RestoredEvents(storage - {UserKey}, es) == RestoredEvents(storage, es)
  {
  }

  class Store {
    var user: Option<Account>
    var activeTab: Tab
    var searchQuery: string
    var darkMode: bool
    var compactView: bool
    var subjects: seq<Subject>
    var selectedNote: Option<Note>
    var expandedSubjectId: Option<string>
    var events: seq<StudyEvent>
    var storage: map<string, Stored>

    /** The component's initial state; `now` stands for the seed note's
        creation time and `persisted` for what local storage already holds. */
    constructor (now: string, persisted: map<string, Stored>)
      ensures user == None && activeTab == DashboardTab && searchQuery == ""
      ensures !darkMode && !compactView
      ensures subjects == Curriculum.SeedSubjects(now) && Curriculum.WellFormed(subjects)
      ensures selectedNote == None && expandedSubjectId == None && events == []
      ensures storage == persisted
    {
      user := None;
      activeTab := DashboardTab;
      searchQuery := "";
      darkMode := false;
      compactView := false;
      subjects := Curriculum.SeedSubjects(now);
      selectedNote := None;
      expandedSubjectId := None;
      events := [];
      storage := persisted;
      Curriculum.SeedWellFormed(now);
    }

    /** The mount effect: restore the user, the events and the settings. */
    method Startup()
      modifies this`user, this`events, this`darkMode, this`compactView
      ensures user == RestoredUser(storage, old(user))
      ensures events == RestoredEvents(storage, old(events))
      ensures Settings(darkMode, compactView) == RestoredSettings(storage, old(Settings(darkMode, compactView)))
    {
      user := RestoredUser(storage, user);
      events := RestoredEvents(storage, events);
      var s := RestoredSettings(storage, Settings(darkMode, compactView));
      darkMode := s.darkMode;
      compactView := s.compactView;
    }

    /** handleLogin: the user is set and written to storage. */
    method Login(account: Account)
      modifies this`user, this`storage
      ensures user == Some(account)
      ensures storage == old(storage)[UserKey := StoredUser(account)]
    {
      user := Some(account);
      storage := storage[UserKey := StoredUser(account)];
    }

    /** handleLogout: both the user and the stored user are cleared. */
    method Logout()
      modifies this`user, this`storage
      ensures user == None
      ensures storage == old(storage) - {UserKey}
      ensures UserKey !in storage
    {
      user := None;
      storage := storage - {UserKey};
    }

    /** handleSaveSettings: the pair applied is exactly the pair stored. */
    method SaveSettings(s: Settings)
      modifies this`darkMode, this`compactView, this`storage
      ensures darkMode == s.darkMode && compactView == s.compactView
      ensures storage == old(storage)[SettingsKey := StoredSettings(s)]
      ensures storage[SettingsKey] == StoredSettings(Settings(darkMode, compactView))
    {
      darkMode := s.darkMode;
      compactView := s.compactView;
      storage := storage[SettingsKey := StoredSettings(s)];
    }

    /** handleAddEvent: the event goes at the end and the stored list is the
        new in-memory list. */
    method AddEvent(e: StudyEvent)
      modifies this`events, this`storage
      ensures events == old(events) + [e]
      ensures storage == old(storage)[EventsKey := StoredEvents(events)]
    {
      events := events + [e];
      storage := storage[EventsKey := StoredEvents(events)];
    }

    /** handleAddSubject; `id` stands for `Date.now()`, `colour` for the random draw. */
    method AddSubject(id: string, name: string, colour: Curriculum.PaletteIndex)
      modifies this`subjects
      ensures subjects == Curriculum.AddSubject(old(subjects), id, name, colour)
      ensures old(Curriculum.WellFormed(subjects)) ==> Curriculum.WellFormed(subjects)
    {
      if Curriculum.WellFormed(subjects) {
        Curriculum.AddSubjectKeepsWellFormed(subjects, id, name, colour);
      }
      subjects := Curriculum.AddSubject(subjects, id, name, colour);
    }

    /** handleDeleteSubject; `confirmed` is the answer to `window.confirm`. */
    method DeleteSubject(id: string, confirmed: bool)
      modifies this`subjects
      ensures subjects == Curriculum.DeleteSubject(old(subjects), id, confirmed)
      ensures old(Curriculum.WellFormed(subjects)) ==> Curriculum.WellFormed(subjects)
    {
      if Curriculum.WellFormed(subjects) {
        Curriculum.DeleteSubjectKeepsWellFormed(subjects, id, confirmed);
      }
      subjects := Curriculum.DeleteSubject(subjects, id, confirmed);
    }

    /** handleCreateFolder. */
    method CreateFolder(subjectId: string, id: string, name: string)
      modifies this`subjects
      ensures subjects == Curriculum.CreateFolder(old(subjects), subjectId, id, name)
      ensures old(Curriculum.WellFormed(subjects)) ==> Curriculum.WellFormed(subjects)
    {
      if Curriculum.WellFormed(subjects) {
        Curriculum.CreateFolderKeepsWellFormed(subjects, subjectId, id, name);
      }
      subjects := Curriculum.CreateFolder(subjects, subjectId, id, name);
    }

    /** handleDeleteFolder. */
    method DeleteFolder(subjectId: string, folderId: string, confirmed: bool)
      modifies this`subjects
      ensures subjects == Curriculum.DeleteFolder(old(subjects), subjectId, folderId, confirmed)
      ensures old(Curriculum.WellFormed(subjects)) ==> Curriculum.WellFormed(subjects)
    {
      if Curriculum.WellFormed(subjects) {
        Curriculum.DeleteFolderKeepsWellFormed(subjects, subjectId, folderId, confirmed);
      }
      subjects := Curriculum.DeleteFolder(subjects, subjectId, folderId, confirmed);
    }

    /** handleUpdateNote: the tree gets the merge, and so does the selected
        note when its id is the one updated. */
    method UpdateNote(noteId: string, patch: NotePatch)
      modifies this`subjects, this`selectedNote
      ensures subjects == Curriculum.UpdateNote(old(subjects), noteId, patch)
      ensures Curriculum.TotalNotes(subjects) == Curriculum.TotalNotes(old(subjects))
      ensures selectedNote ==
        if old(selectedNote).Some? && old(selectedNote).value.id == noteId
        then Some(Merge(old(selectedNote).value, patch)) else old(selectedNote)
      ensures old(Curriculum.WellFormed(subjects)) && patch.folderId.None? ==> Curriculum.WellFormed(subjects)
    {
      Curriculum.UpdateNoteKeepsTotal(subjects, noteId, patch);
      if patch.folderId.None? && Curriculum.WellFormed(subjects) {
        Curriculum.UpdateNoteKeepsWellFormed(subjects, noteId, patch);
      }
      subjects := Curriculum.UpdateNote(subjects, noteId, patch);
      if selectedNote.Some? && selectedNote.value.id == noteId {
        selectedNote := Some(Merge(selectedNote.value, patch));
      }
    }

    /** handleCreateNote: the new note becomes the selected note whether or not
        a folder with that id exists. */
    method CreateNote(folderId: string, id: string, createdAt: string)
      modifies this`subjects, this`selectedNote
      ensures subjects == Curriculum.CreateNote(old(subjects), folderId, id, createdAt)
      ensures selectedNote == Some(Curriculum.NewNote(id, folderId, createdAt))
      ensures Curriculum.TotalNotes(subjects)
           == Curriculum.TotalNotes(old(subjects)) + Curriculum.CountFoldersWithId(old(subjects), folderId)
      ensures old(Curriculum.WellFormed(subjects)) ==> Curriculum.WellFormed(subjects)
    {
      Curriculum.CreateNoteCount(subjects, folderId, id, createdAt);
      if Curriculum.WellFormed(subjects) {
        Curriculum.CreateNoteKeepsWellFormed(subjects, folderId, id, createdAt);
      }
      subjects := Curriculum.CreateNote(subjects, folderId, id, createdAt);
      selectedNote := Some(Curriculum.NewNote(id, folderId, createdAt));
    }

    /** The search box's onChange. */
    method SetSearchQuery(q: string)
      modifies this`searchQuery
      ensures searchQuery == q
    {
      searchQuery := q;
    }

    /** filteredSubjects, the list the dashboard and the curriculum view show:
        the matching subjects in their order, all of them for an empty query. */
    function FilteredSubjects(): (r: seq<Subject>)
      reads this
      ensures forall s :: s in r <==> s in subjects && Curriculum.MatchesQuery(s, searchQuery)
      ensures forall x :: multiset(r)[x] == if Curriculum.MatchesQuery(x, searchQuery) then multiset(subjects)[x] else 0
      ensures Seqs.IsSubsequence(r, subjects)
      ensures searchQuery == "" ==> r == subjects
    {
      if searchQuery == "" then Curriculum.EmptyQueryKeepsAll(subjects); Curriculum.FilterSubjects(subjects, searchQuery) else
      Curriculum.FilterSubjects(subjects, searchQuery)
    }

    /** The dashboard's onOpenSubject callback. */
    method OpenSubject(id: string)
      modifies this`activeTab, this`expandedSubjectId
      ensures RouteOf(id) == ShowCalendar ==> activeTab == CalendarTab && expandedSubjectId == old(expandedSubjectId)
      ensures RouteOf(id).ExpandSubject? ==> activeTab == SubjectsTab && expandedSubjectId == Some(id)
    {
      if id == "calendar" {
        activeTab := CalendarTab;
      } else {
        expandedSubjectId := Some(id);
        activeTab := SubjectsTab;
      }
    }

    /** The dashboard's onNoteClick callback: select the note and open the curriculum. */
    method NoteClick(note: Note)
      modifies this`selectedNote, this`activeTab
      ensures selectedNote == Some(note) && activeTab == SubjectsTab
    {
      selectedNote := Some(note);
      activeTab := SubjectsTab;
    }
  }
}
