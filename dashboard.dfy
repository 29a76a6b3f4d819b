/** The dashboard's derived views (components/Dashboard.tsx): the recent
    notes, the upcoming events, the per-subject counts and the ids handed to
    onOpenSubject. The component keeps no state, so everything here is a
    function of its props. */
module Dashboard {
  import opened Types
  import opened Seqs
  import Curriculum
  import App

  /** `folders.flatMap(f => f.notes)`: the notes of each folder in turn. */
  function FolderNotes(folders: seq<Folder>): (r: seq<Note>)
    ensures |r| == Curriculum.FolderNoteCount(folders)
  {
    if folders == [] then [] else folders[0].notes + FolderNotes(folders[1..])
  }

  /** `subjects.flatMap(s => s.folders.flatMap(f => f.notes))`: every note,
      subject by subject and folder by folder. */
  function AllNotes(subjects: seq<Subject>): (r: seq<Note>)
    ensures |r| == Curriculum.TotalNotes(subjects)
  {
    if subjects == [] then [] else FolderNotes(subjects[0].folders) + AllNotes(subjects[1..])
  }

  lemma {:induction false} FolderNotesMembership(folders: seq<Folder>, n: Note)
    ensures n in FolderNotes(folders) <==> exists j :: 0 <= j < |folders| && n in folders[j].notes
  {
    if folders != [] {
      FolderNotesMembership(folders[1..], n);
      if n in FolderNotes(folders[1..]) {
        var j :| 0 <= j < |folders[1..]| && n in folders[1..][j].notes;
        assert n in folders[j + 1].notes;
      }
      if exists j :: 0 <= j < |folders| && n in folders[j].notes {
        var j :| 0 <= j < |folders| && n in folders[j].notes;
        if j > 0 {
          assert n in folders[1..][j - 1].notes;
        }
      }
    }
  }

  /** A note is in the traversal exactly when some folder of some subject holds it. */
  lemma {:induction false} AllNotesMembership(subjects: seq<Subject>, n: Note)
    ensures n in AllNotes(subjects) <==>
      exists i, j :: 0 <= i < |subjects| && 0 <= j < |subjects[i].folders| && n in subjects[i].folders[j].notes
  {
    if subjects != [] {
      AllNotesMembership(subjects[1..], n);
      FolderNotesMembership(subjects[0].folders, n);
      if n in AllNotes(subjects[1..]) {
        var i, j :| 0 <= i < |subjects[1..]| && 0 <= j < |subjects[1..][i].folders| && n in subjects[1..][i].folders[j].notes;
        assert n in subjects[i + 1].folders[j].notes;
      }
      if n in FolderNotes(subjects[0].folders) {
        var j :| 0 <= j < |subjects[0].folders| && n in subjects[0].folders[j].notes;
        assert n in subjects[0].folders[j].notes;
      }
      if exists i, j :: 0 <= i < |subjects| && 0 <= j < |subjects[i].folders| && n in subjects[i].folders[j].notes {
        var i, j :| 0 <= i < |subjects| && 0 <= j < |subjects[i].folders| && n in subjects[i].folders[j].notes;
        if i > 0 {
          assert n in subjects[1..][i - 1].folders[j].notes;
        }
      }
    }
  }

  /** The traversal of two lists of subjects is the traversal of the first
      followed by that of the second. */
  lemma {:induction false} AllNotesAppend(a: seq<Subject>, b: seq<Subject>)
    ensures AllNotes(a + b) == AllNotes(a) + AllNotes(b)
  {
    if a == [] {
      assert a + b == b;
    } else {
      assert (a + b)[0] == a[0] && (a + b)[1..] == a[1..] + b;
      AllNotesAppend(a[1..], b);
    }
  }

  /** `recentNotes`: the first three notes of the traversal (fewer when there
      are fewer), not ordered by time. */
  function RecentNotes(subjects: seq<Subject>): (r: seq<Note>)
    ensures |r| == Min(3, Curriculum.TotalNotes(subjects))
    ensures r == AllNotes(subjects)[..|r|]
  {
    Take(AllNotes(subjects), 3)
  }

  /** Every recent note lives in some folder of some subject. */
  lemma RecentNoteLocated(subjects: seq<Subject>, n: Note)
    requires n in RecentNotes(subjects)
    ensures exists i, j :: 0 <= i < |subjects| && 0 <= j < |subjects[i].folders| && n in subjects[i].folders[j].notes
  {
    AllNotesMembership(subjects, n);
  }

  /** A new subject has no folders, so adding one leaves the recent notes alone. */
  lemma RecentNotesAfterAddSubject(subjects: seq<Subject>, id: string, name: string, colour: Curriculum.PaletteIndex)
    ensures RecentNotes(Curriculum.AddSubject(subjects, id, name, colour)) == RecentNotes(subjects)
  {
    var s := Subject(id, name, Curriculum.Colour(colour), []);
    AllNotesAppend(subjects, [s]);
    assert AllNotes([s]) == [];
    assert AllNotes(subjects) + [] == AllNotes(subjects);
  }

  /** Ascending by `timeOf(date)`, which stands for `new Date(date).getTime()`. */
  predicate SortedByTime(s: seq<StudyEvent>, timeOf: string -> int)
  {
    forall i, j :: 0 <= i < j < |s| ==> timeOf(s[i].date) <= timeOf(s[j].date)
  }

  /** Insert `e` in front of the first event later than it. */
  function InsertByTime(e: StudyEvent, s: seq<StudyEvent>, timeOf: string -> int): (r: seq<StudyEvent>)
    ensures multiset(r) == multiset(s) + multiset{e}
    decreases |s|
  {
    if s == [] then [e]
    else if timeOf(e.date) <= timeOf(s[0].date) then [e] + s
    else
      assert s == [s[0]] + s[1..];
      [s[0]] + InsertByTime(e, s[1..], timeOf)
  }

  /** An event no later than every element of a sorted list can go in front. */
  lemma ConsSorted(a: StudyEvent, t: seq<StudyEvent>, timeOf: string -> int)
    requires SortedByTime(t, timeOf)
    requires forall k :: 0 <= k < |t| ==> timeOf(a.date) <= timeOf(t[k].date)
    ensures SortedByTime([a] + t, timeOf)
  {
    var r := [a] + t;
    forall i, j | 0 <= i < j < |r|
      ensures timeOf(r[i].date) <= timeOf(r[j].date)
    {
      if i > 0 {
        assert r[i] == t[i - 1] && r[j] == t[j - 1];
      } else {
        assert r[j] == t[j - 1];
      }
    }
  }

  /** Inserting into a sorted list keeps it sorted. */
  lemma {:induction false} InsertKeepsSorted(e: StudyEvent, s: seq<StudyEvent>, timeOf: string -> int)
    requires SortedByTime(s, timeOf)
    ensures SortedByTime(InsertByTime(e, s, timeOf), timeOf)
    decreases |s|
  {
    if s == [] {
    } else if timeOf(e.date) <= timeOf(s[0].date) {
      ConsSorted(e, s, timeOf);
    } else {
      var tail := s[1..];
      assert SortedByTime(tail, timeOf) by {
        forall i, j | 0 <= i < j < |tail|
          ensures timeOf(tail[i].date) <= timeOf(tail[j].date)
        {
          assert tail[i] == s[i + 1] && tail[j] == s[j + 1];
        }
      }
      InsertKeepsSorted(e, tail, timeOf);
      var t := InsertByTime(e, tail, timeOf);
      forall k | 0 <= k < |t|
        ensures timeOf(s[0].date) <= timeOf(t[k].date)
      {
        assert t[k] in multiset(t);
        if t[k] != e {
          assert t[k] in multiset(tail);
          var m :| 0 <= m < |tail| && tail[m] == t[k];
          assert s[m + 1] == t[k];
        }
      }
      ConsSorted(s[0], t, timeOf);
    }
  }

  /** The copy `[...events].sort((a, b) => a.time - b.time)`: an insertion
      sort, so a rearrangement of the events. */
  function SortByTime(events: seq<StudyEvent>, timeOf: string -> int): (r: seq<StudyEvent>)
    ensures multiset(r) == multiset(events)
  {
    if events == [] then []
    else
      assert events == [events[0]] + events[1..];
      InsertByTime(events[0], SortByTime(events[1..], timeOf), timeOf)
  }

  /** The sorted copy is in ascending order of time. */
  lemma {:induction false} SortByTimeSorted(events: seq<StudyEvent>, timeOf: string -> int)
    ensures SortedByTime(SortByTime(events, timeOf), timeOf)
  {
    if events != [] {
      SortByTimeSorted(events[1..], timeOf);
      InsertKeepsSorted(events[0], SortByTime(events[1..], timeOf), timeOf);
    }
  }

  /** The first `k` elements of a sorted list are no later than any of the rest. */
  lemma PrefixOfSortedIsEarliest(s: seq<StudyEvent>, k: nat, timeOf: string -> int, x: StudyEvent, e: StudyEvent)
    requires SortedByTime(s, timeOf) && k <= |s|
    requires x in s[..k] && e in multiset(s) - multiset(s[..k])
    ensures timeOf(x.date) <= timeOf(e.date)
  {
    assert s == s[..k] + s[k..];
    assert multiset(s) == multiset(s[..k]) + multiset(s[k..]);
    assert e in s[k..];
    var i :| 0 <= i < k && s[..k][i] == x;
    var j :| 0 <= j < |s[k..]| && s[k..][j] == e;
    assert s[i] == x && s[k + j] == e;
  }

  /** A prefix of a sorted rearrangement of `events` is sorted, drawn from
      `events`, and no later than any event it leaves out. */
  lemma SortedPrefixIsEarliest(s: seq<StudyEvent>, events: seq<StudyEvent>, k: nat, timeOf: string -> int)
    requires SortedByTime(s, timeOf) && multiset(s) == multiset(events) && k <= |s|
    ensures SortedByTime(s[..k], timeOf)
    ensures multiset(s[..k]) <= multiset(events)
    ensures forall x, e :: x in s[..k] && e in multiset(events) - multiset(s[..k]) ==> timeOf(x.date) <= timeOf(e.date)
  {
    var r := s[..k];
    assert SortedByTime(r, timeOf) by {
      forall i, j | 0 <= i < j < |r|
        ensures timeOf(r[i].date) <= timeOf(r[j].date)
      {
        assert r[i] == s[i] && r[j] == s[j];
      }
    }
    assert s == r + s[k..];
    assert multiset(s) == multiset(r) + multiset(s[k..]);
    forall x, e | x in r && e in multiset(events) - multiset(r)
      ensures timeOf(x.date) <= timeOf(e.date)
    {
      PrefixOfSortedIsEarliest(s, k, timeOf, x, e);
    }
  }

  /** `upcomingEvents`: the three earliest events (fewer when there are fewer),
      earliest first; every event left out is no earlier than each one shown. */
  function UpcomingEvents(events: seq<StudyEvent>, timeOf: string -> int): (r: seq<StudyEvent>)
    ensures |r| == Min(3, |events|)
    ensures SortedByTime(r, timeOf)
    ensures multiset(r) <= multiset(events)
    ensures forall x, e :: x in r && e in multiset(events) - multiset(r) ==> timeOf(x.date) <= timeOf(e.date)
  {
    var s := SortByTime(events, timeOf);
    SortByTimeSorted(events, timeOf);
    assert |s| == |multiset(s)| == |events|;
    SortedPrefixIsEarliest(s, events, Min(3, |s|), timeOf);
    Take(s, 3)
  }

  /** `folders.reduce((acc, f) => acc + f.notes.length, acc)`, folding from the left. */
  function SumNoteCounts(folders: seq<Folder>, acc: nat): (r: nat)
    ensures r == acc + Curriculum.FolderNoteCount(folders)
  {
    if folders == [] then acc else SumNoteCounts(folders[1..], acc + |folders[0].notes|)
  }

  /** The note count on a subject card: the notes of all its folders. */
  function NoteCount(subject: Subject): (r: nat)
    ensures r == Curriculum.FolderNoteCount(subject.folders)
    ensures r == |FolderNotes(subject.folders)|
  {
    SumNoteCounts(subject.folders, 0)
  }

  /** The folder count on a subject card; a card with no folders shows no notes. */
  function FolderCount(subject: Subject): (r: nat)
    ensures r == 0 ==> NoteCount(subject) == 0
  {
    |subject.folders|
  }

  /** A freshly added subject's card shows no folders and no notes. */
  lemma NewSubjectCard(subjects: seq<Subject>, id: string, name: string, colour: Curriculum.PaletteIndex)
    ensures var s := Curriculum.AddSubject(subjects, id, name, colour)[|subjects|];
      FolderCount(s) == 0 && NoteCount(s) == 0
  {
  }

  /** Creating a folder adds one to the folder count of the subject's card
      and leaves its note count alone. */
  lemma {:induction false} CreateFolderCard(subjects: seq<Subject>, subjectId: string, id: string, name: string, i: nat)
    requires i < |subjects| && subjects[i].id == subjectId
    ensures var s := Curriculum.CreateFolder(subjects, subjectId, id, name)[i];
      FolderCount(s) == FolderCount(subjects[i]) + 1 && NoteCount(s) == NoteCount(subjects[i])
  {
    var fs := subjects[i].folders;
    var nf := Folder(id, subjectId, name, []);
    assert Curriculum.CreateFolder(subjects, subjectId, id, name)[i].folders == fs + [nf];
    FolderNotesAppend(fs, [nf]);
    assert FolderNotes([nf]) == [];
    assert FolderNotes(fs) + [] == FolderNotes(fs);
  }

  /** The notes of two folder lists, one after the other. */
  lemma {:induction false} FolderNotesAppend(a: seq<Folder>, b: seq<Folder>)
    ensures FolderNotes(a + b) == FolderNotes(a) + FolderNotes(b)
  {
    if a == [] {
      assert a + b == b;
    } else {
      assert (a + b)[0] == a[0] && (a + b)[1..] == a[1..] + b;
      FolderNotesAppend(a[1..], b);
    }
  }

  /** The id a subject card passes to onOpenSubject: it expands that very
      subject unless its id happens to be the literal 'calendar'. */
  function SubjectCardTarget(subject: Subject): (id: string)
    ensures App.RouteOf(id) == App.ShowCalendar <==> subject.id == "calendar"
    ensures subject.id != "calendar" ==> App.RouteOf(id) == App.ExpandSubject(subject.id)
  {
    subject.id
  }

  /** The id the "View Full Planner" button passes to onOpenSubject. */
  const PlannerTarget := "calendar"

  /** The planner button opens the calendar, and a subject card can be
      mistaken for it only when the subject's id is the literal 'calendar'. */
  lemma DashboardRouting(subject: Subject)
    ensures App.RouteOf(PlannerTarget) == App.ShowCalendar
    ensures SubjectCardTarget(subject) == PlannerTarget <==> subject.id == "calendar"
  {
  }
}
