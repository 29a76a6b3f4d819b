/** The local state of the curriculum list (components/SubjectsList.tsx):
    which subjects and folders are expanded, and the two name inputs. The
    callbacks to App are returned to the caller instead of being invoked. */
module SubjectsList {
  import opened Types
  import opened Seqs
  import opened Text

  function IdIsNot(id: string): string -> bool
  {
    x => x != id
  }

  /** toggleSubject / toggleFolder: an absent id is appended, a present id is
      removed (every copy of it). No other id enters or leaves the list. */
  function Toggle(ids: seq<string>, id: string): (r: seq<string>)
    ensures id in r <==> id !in ids
    ensures forall x :: x != id ==> (x in r <==> x in ids)
    ensures id !in ids ==> r == ids + [id]
    ensures id in ids ==> IsSubsequence(r, ids) && |r| < |ids|
    ensures id in ids ==> forall x :: multiset(r)[x] == if x == id then 0 else multiset(ids)[x]
  {
    if id in ids then
      FilterIsSubsequence(IdIsNot(id), ids);
      FilterShrinks(ids, id);
      FilterMultiplicity(IdIsNot(id), ids);
      Filter(IdIsNot(id), ids)
    else
      ids + [id]
  }

  lemma {:induction false} FilterShrinks(ids: seq<string>, id: string)
    requires id in ids
    ensures |Filter(IdIsNot(id), ids)| < |ids|
  {
    if ids[0] != id {
      FilterShrinks(ids[1..], id);
    }
  }

  /** Toggling an id that was collapsed twice gives back the same list. */
  lemma ToggleTwiceRestores(ids: seq<string>, id: string)
    requires id !in ids
    ensures Toggle(Toggle(ids, id), id) == ids
  {
    FilterAppend(IdIsNot(id), ids, [id]);
    FilterKeepsAll(IdIsNot(id), ids);
    assert Filter(IdIsNot(id), [id]) == [];
  }

  /** Toggling keeps a duplicate-free list duplicate-free. */
  lemma ToggleKeepsDistinct(ids: seq<string>, id: string)
    requires NoDuplicates(ids)
    ensures NoDuplicates(Toggle(ids, id))
  {
    if id in ids {
      FilterKeepsDistinct(IdIsNot(id), ids);
    }
  }

  lemma {:induction false} FilterKeepsDistinct(p: string -> bool, s: seq<string>)
    requires NoDuplicates(s)
    ensures NoDuplicates(Filter(p, s))
  {
    if s != [] {
      assert NoDuplicates(s[1..]);
      FilterKeepsDistinct(p, s[1..]);
      assert s[0] !in s[1..];
    }
  }

  /** The externalExpandedId effect: a truthy id joins the expanded list
      through a Set, so the list comes out duplicate-free, contains the id,
      and keeps the first-occurrence order of what was there. */
  function ExternalExpand(prev: seq<string>, external: Option<string>): (r: seq<string>)
    ensures external.None? || external.value == "" ==> r == prev
    ensures external.Some? && external.value != "" ==>
      && NoDuplicates(r)
      && external.value in r
      && (forall x :: x in r <==> x in prev || x == external.value)
      && IsSubsequence(r, prev + [external.value])
      && (forall i, j :: 0 <= i < j < |r| ==>
            FirstIndex(prev + [external.value], r[i]) < FirstIndex(prev + [external.value], r[j]))
  {
    if external.Some? && external.value != "" then
      DedupIsSubsequence(prev + [external.value]);
      DedupFirstOccurrence(prev + [external.value]);
      Dedup(prev + [external.value])
    else
      prev
  }

  /** On a duplicate-free list the expansion appends the id exactly when it
      is not yet expanded. */
  lemma ExternalExpandDistinct(prev: seq<string>, id: string)
    requires NoDuplicates(prev) && id != ""
    ensures ExternalExpand(prev, Some(id)) == if id in prev then prev else prev + [id]
  {
    DedupSnoc(prev, id);
    DedupOfDistinct(prev);
  }

  /** What handleAddFolderSubmit hands to onAddFolder. */
  datatype FolderRequest = FolderRequest(subjectId: string, name: string)

  class ListState {
    var expandedSubjects: seq<string>
    var expandedFolders: seq<string>
    var newSubjectName: string
    var activeFolderInput: Option<string>
    var newFolderName: string

    /** The expanded lists hold each id at most once: toggling, the external
        expansion and the folder submit all keep them duplicate-free. */
    predicate Valid()
      reads this`expandedSubjects, this`expandedFolders
    {
      NoDuplicates(expandedSubjects) && NoDuplicates(expandedFolders)
    }

    constructor ()
      ensures Valid()
      ensures expandedSubjects == [] && expandedFolders == []
      ensures newSubjectName == "" && activeFolderInput == None && newFolderName == ""
    {
      expandedSubjects := [];
      expandedFolders := [];
      newSubjectName := "";
      activeFolderInput := None;
      newFolderName := "";
    }

    method ToggleSubject(id: string)
      modifies this`expandedSubjects
      ensures expandedSubjects == Toggle(old(expandedSubjects), id)
      ensures old(Valid()) ==> Valid()
    {
      if NoDuplicates(expandedSubjects) {
        ToggleKeepsDistinct(expandedSubjects, id);
      }
      expandedSubjects := Toggle(expandedSubjects, id);
    }

    method ToggleFolder(id: string)
      modifies this`expandedFolders
      ensures expandedFolders == Toggle(old(expandedFolders), id)
      ensures old(Valid()) ==> Valid()
    {
      if NoDuplicates(expandedFolders) {
        ToggleKeepsDistinct(expandedFolders, id);
      }
      expandedFolders := Toggle(expandedFolders, id);
    }

    /** The externalExpandedId effect; on a valid state a truthy id is
        appended exactly when it is not yet expanded. */
    method ExternalExpansion(external: Option<string>)
      modifies this`expandedSubjects
      ensures expandedSubjects == ExternalExpand(old(expandedSubjects), external)
      ensures old(Valid()) ==> Valid()
      ensures old(Valid()) && external.Some? && external.value != "" ==>
        expandedSubjects == if external.value in old(expandedSubjects) then old(expandedSubjects)
                            else old(expandedSubjects) + [external.value]
    {
      if NoDuplicates(expandedSubjects) && external.Some? && external.value != "" {
        ExternalExpandDistinct(expandedSubjects, external.value);
      }
      expandedSubjects := ExternalExpand(expandedSubjects, external);
    }

    /** The course-title input's onChange. */
    method EditSubjectName(text: string)
      modifies this`newSubjectName
      ensures newSubjectName == text
    {
      newSubjectName := text;
    }

    /** handleAddSubjectSubmit: a non-blank name is passed on trimmed and the
        input is cleared; a blank name changes nothing. */
    method SubmitSubject() returns (added: Option<string>)
      modifies this`newSubjectName
      ensures added == NonBlankTrim(old(newSubjectName))
      ensures newSubjectName == if added.Some? then "" else old(newSubjectName)
    {
      added := NonBlankTrim(newSubjectName);
      if added.Some? {
        newSubjectName := "";
      }
    }

    /** The 'New Folder' button shows the folder input under that subject. */
    method OpenFolderInput(subjectId: string)
      modifies this`activeFolderInput
      ensures activeFolderInput == Some(subjectId)
    {
      activeFolderInput := Some(subjectId);
    }

    /** The folder-name input's onChange. */
    method EditFolderName(text: string)
      modifies this`newFolderName
      ensures newFolderName == text
    {
      newFolderName := text;
    }

    /** handleAddFolderSubmit: a non-blank name creates the folder, clears the
        name, closes the input and expands the subject if it was collapsed; a
        blank name changes nothing. */
    method SubmitFolder(subjectId: string) returns (added: Option<FolderRequest>)
      modifies this`newFolderName, this`activeFolderInput, this`expandedSubjects
      ensures NonBlankTrim(old(newFolderName)).None? ==>
        added == None && newFolderName == old(newFolderName)
        && activeFolderInput == old(activeFolderInput) && expandedSubjects == old(expandedSubjects)
      ensures NonBlankTrim(old(newFolderName)).Some? ==>
        && added == Some(FolderRequest(subjectId, NonBlankTrim(old(newFolderName)).value))
        && newFolderName == "" && activeFolderInput == None
        && expandedSubjects ==
             if subjectId in old(expandedSubjects) then old(expandedSubjects) else old(expandedSubjects) + [subjectId]
      ensures old(Valid()) ==> Valid()
    {
      var trimmed := NonBlankTrim(newFolderName);
      added := None;
      if trimmed.Some? {
        added := Some(FolderRequest(subjectId, trimmed.value));
        newFolderName := "";
        activeFolderInput := None;
        if subjectId !in expandedSubjects {
          expandedSubjects := expandedSubjects + [subjectId];
        }
      }
    }

    /** Escape or the cancel button: the input closes, no folder is added, and
        the typed name is kept. */
    method CancelFolderInput()
      modifies this`activeFolderInput
      ensures activeFolderInput == None
    {
      activeFolderInput := None;
    }
  }
}
