/** The state updates of the writing workstation: tag colours, the material selection, the
    removal of notes, files, drafts and published records, the batch import of note links,
    project creation, and the guard and quota update of a generation. The component's state
    hooks are the fields of `Workstation`; what the services answer is an input. */
module Workstation {
  import opened Wrappers
  import opened Strings
  import opened Types
  import opened Seqs
  import TextHash

  // ---------------------------------------------------------------- filters

  function NoteIdIsNot(id: string): SocialNote -> bool {
    (n: SocialNote) => n.noteId != id
  }

  function FileIdIsNot(id: string): AttachedFile -> bool {
    (f: AttachedFile) => f.id != id
  }

  function DraftIdIsNot(id: string): NoteDraft -> bool {
    (d: NoteDraft) => d.id != id
  }

  function RecordIdNotIn(ids: set<string>): PublishedRecord -> bool {
    (r: PublishedRecord) => r.id !in ids
  }

  function ProjectIdIsNot(id: string): Project -> bool {
    (p: Project) => p.id != id
  }

  // ---------------------------------------------------------------- tag colours

  const TagColors := [
    "bg-red-50 text-red-600 border-red-100",
    "bg-orange-50 text-orange-600 border-orange-100",
    "bg-amber-50 text-amber-600 border-amber-100",
    "bg-green-50 text-green-600 border-green-100",
    "bg-emerald-50 text-emerald-600 border-emerald-100",
    "bg-teal-50 text-teal-600 border-teal-100",
    "bg-cyan-50 text-cyan-600 border-cyan-100",
    "bg-blue-50 text-blue-600 border-blue-100",
    "bg-indigo-50 text-indigo-600 border-indigo-100",
    "bg-violet-50 text-violet-600 border-violet-100",
    "bg-purple-50 text-purple-600 border-purple-100",
    "bg-fuchsia-50 text-fuchsia-600 border-fuchsia-100",
    "bg-pink-50 text-pink-600 border-pink-100",
    "bg-rose-50 text-rose-600 border-rose-100"
  ]

  /** The colour class of a tag: the tag's string hash picks one of the fourteen classes. */
  function TagColor(tag: string): (c: string)
    ensures c in TagColors
  {
    TagColors[TextHash.Bucket(tag, |TagColors|)]
  }

  /** `getTagColor`: the hash loop, then the colour it selects. */
  method GetTagColor(tag: string) returns (color: string)
    ensures color == TagColor(tag)
    ensures color in TagColors
  {
    var hash := TextHash.Hash(tag);
    color := TagColors[TextHash.Abs(hash) % |TagColors|];
  }

  // ---------------------------------------------------------------- selection

  /** The selection with one id flipped. */
  function Toggled(selected: set<string>, id: string): (r: set<string>)
    ensures id in r <==> id !in selected
    ensures forall x :: x != id ==> (x in r <==> x in selected)
  {
    if id in selected then selected - {id} else selected + {id}
  }

  /** Toggling the same id twice restores the selection. */
  lemma ToggleTwice(selected: set<string>, id: string)
    ensures Toggled(Toggled(selected, id), id) == selected
  {
  }

  // ---------------------------------------------------------------- batch import

  /** A link is already imported when it contains the id of a saved note. */
  predicate Known(url: string, notes: seq<SocialNote>) {
    exists n :: n in notes && Contains(url, n.noteId)
  }

  function IsNewUrl(notes: seq<SocialNote>): string -> bool {
    (u: string) => !Known(u, notes)
  }

  /** What fetching one link gave: the note, and whether its `desc` is a string. The note is
      kept before `desc.substring` runs, so a note without a string `desc` is kept and also
      counted as a failure. */
  datatype Fetched = Fetched(note: SocialNote, descIsString: bool)

  /** What a batch of fetches yields: the notes fetched, in order, stamped with the import
      time, and the number of failures. */
  function FetchAll(urls: seq<string>, fetch: string -> Result<Fetched, string>, now: int): (r: (seq<SocialNote>, nat))
    ensures |r.0| <= |urls| <= |r.0| + r.1
    ensures forall n :: n in r.0 ==> n.addedAt == now
  {
    if urls == [] then ([], 0)
    else
      var init := urls[..|urls| - 1];
      var u := urls[|urls| - 1];
      var prev := FetchAll(init, fetch, now);
      match fetch(u)
      case Ok(f) => (prev.0 + [f.note.(addedAt := now)], prev.1 + (if f.descIsString then 0 else 1))
      case Err(_) => (prev.0, prev.1 + 1)
  }

  /** When every fetched note has a string `desc`, each link is either a note or a failure. */
  lemma {:induction false} FetchAllPartition(urls: seq<string>, fetch: string -> Result<Fetched, string>, now: int)
    requires forall u :: u in urls && fetch(u).Ok? ==> fetch(u).value.descIsString
    ensures |FetchAll(urls, fetch, now).0| + FetchAll(urls, fetch, now).1 == |urls|
  {
    if urls != [] {
      var init := urls[..|urls| - 1];
      assert forall v :: v in init ==> v in urls;
      FetchAllPartition(init, fetch, now);
    }
  }

  /** Every note of the batch is the note one of the links fetched, stamped with `now`. */
  lemma {:induction false} FetchAllOrigin(urls: seq<string>, fetch: string -> Result<Fetched, string>, now: int)
    ensures forall n :: n in FetchAll(urls, fetch, now).0 ==>
              exists u :: u in urls && fetch(u).Ok? && n == fetch(u).value.note.(addedAt := now)
  {
    if urls != [] {
      var init := urls[..|urls| - 1];
      assert forall v :: v in init ==> v in urls;
      FetchAllOrigin(init, fetch, now);
    }
  }

  /** One more link extends the batch by what its fetch gave. */
  lemma FetchAllSnoc(urls: seq<string>, i: nat, fetch: string -> Result<Fetched, string>, now: int)
    requires i < |urls|
    ensures var prev, got := FetchAll(urls[..i], fetch, now), fetch(urls[i]);
            FetchAll(urls[..i + 1], fetch, now) ==
              if got.Ok? then (prev.0 + [got.value.note.(addedAt := now)], prev.1 + (if got.value.descIsString then 0 else 1))
              else (prev.0, prev.1 + 1)
  {
    assert urls[..i + 1][..i] == urls[..i];
  }

  /** The fetch loop of `handleBatchExtractInternal`: each link in order, a note kept for
      every answer and a failure counted for every error or `desc` that is not a string. */
  method FetchEach(urls: seq<string>, fetch: string -> Result<Fetched, string>, now: int)
    returns (notes: seq<SocialNote>, failed: nat)
    ensures (notes, failed) == FetchAll(urls, fetch, now)
  {
    notes, failed := [], 0;
    for i := 0 to |urls|
      invariant (notes, failed) == FetchAll(urls[..i], fetch, now)
    {
      FetchAllSnoc(urls, i, fetch, now);
      match fetch(urls[i])
      case Ok(data) =>
        notes := notes + [data.note.(addedAt := now)];
        if !data.descIsString {
          failed := failed + 1;
        }
      case Err(_) =>
        failed := failed + 1;
    }
    assert urls[..|urls|] == urls;
  }

  /** A fetched note whose `desc` is not a string is both added and counted as failed. */
  lemma DesclessNoteAddedAndFailed(u: string, fetch: string -> Result<Fetched, string>, now: int)
    requires fetch(u).Ok? && !fetch(u).value.descIsString
    ensures FetchAll([u], fetch, now) == ([fetch(u).value.note.(addedAt := now)], 1)
  {
    var n := fetch(u).value.note.(addedAt := now);
    assert [u][..0] == [] && [u][0] == u;
    assert FetchAll([u], fetch, now) == (FetchAll([], fetch, now).0 + [n], FetchAll([], fetch, now).1 + 1);
    assert FetchAll([], fetch, now).0 + [n] == [n];
  }

  /** A batch of links that are all known fetches nothing. */
  lemma AllKnownFetchesNothing(urls: seq<string>, notes: seq<SocialNote>)
    requires forall u :: u in urls ==> Known(u, notes)
    ensures Filter(urls, IsNewUrl(notes)) == []
  {
    assert forall u :: u in urls ==> !IsNewUrl(notes)(u);
  }

  // ---------------------------------------------------------------- projects

  const TempPrefix := "temp-"
  const DefaultWordCount := 400

  /** The placeholder project shown while the first save is pending. */
  function NewProject(tempId: string, name: string, now: int): (p: Project)
    ensures p.id == tempId && p.name == name && !p.isDeleted
    ensures p.drafts == [] && p.publishedHistory == [] && p.socialNotes == [] && p.attachedFiles == []
  {
    Project(tempId, name, now, None, "", [], [], "", [], [], DefaultWordCount, false)
  }

  /** Some project already has the name, once both are trimmed. */
  predicate NameTaken(projects: seq<Project>, cleanName: string) {
    exists p :: p in projects && Trim(p.name) == cleanName
  }

  /** Every project with id `from` renamed to `to`. */
  function Renamed(projects: seq<Project>, from: string, to: string): (r: seq<Project>)
    ensures |r| == |projects|
    ensures forall i :: 0 <= i < |projects| ==>
              r[i] == if projects[i].id == from then projects[i].(id := to) else projects[i]
  {
    seq(|projects|, i requires 0 <= i < |projects| =>
          if projects[i].id == from then projects[i].(id := to) else projects[i])
  }

  /** The current project with a new published history and update time. */
  function WithHistory(projects: seq<Project>, current: Option<string>, history: seq<PublishedRecord>, now: int): (r: seq<Project>)
    ensures |r| == |projects|
    ensures forall i :: 0 <= i < |projects| ==>
              r[i] == if current == Some(projects[i].id) then projects[i].(publishedHistory := history, updatedAt := now)
                      else projects[i]
  {
    seq(|projects|, i requires 0 <= i < |projects| =>
          if current == Some(projects[i].id) then projects[i].(publishedHistory := history, updatedAt := now)
          else projects[i])
  }

  /** When no earlier project carries the temporary id, removing the placeholder after a
      failed save gives back the earlier list. */
  lemma FailedCreateRestores(projects: seq<Project>, placeholder: Project)
    requires forall p :: p in projects ==> p.id != placeholder.id
    ensures Filter([placeholder] + projects, ProjectIdIsNot(placeholder.id)) == projects
  {
    FilterAppend([placeholder], projects, ProjectIdIsNot(placeholder.id));
    FilterKeepsAll(projects, ProjectIdIsNot(placeholder.id));
    assert Filter([placeholder], ProjectIdIsNot(placeholder.id)) == [];
  }

  /** When no earlier project carries the temporary id, a successful save renames only the
      placeholder, which stays first. */
  lemma SavedCreateRenamesPlaceholder(projects: seq<Project>, placeholder: Project, realId: string)
    requires forall p :: p in projects ==> p.id != placeholder.id
    ensures Renamed([placeholder] + projects, placeholder.id, realId) == [placeholder.(id := realId)] + projects
  {
    var r := Renamed([placeholder] + projects, placeholder.id, realId);
    forall i | 1 <= i < |r| ensures r[i] == projects[i - 1] {
      assert ([placeholder] + projects)[i] == projects[i - 1];
    }
  }

  /** The state after `createNewProject`: a blank name, a creation in progress or a taken
      name change nothing; otherwise a placeholder project is put first and made current,
      renamed to the saved id when the save returns a different one, and removed again, with
      no current project left, when the save fails. */
  function AfterCreate(s: Screen, name: string, now: int, save: Result<Option<string>, string>): (r: Screen)
    ensures r == s.(projects := r.projects, currentProjectId := r.currentProjectId)
    ensures Trim(name) == [] ==> r == s
  {
    var cleanName := Trim(name);
    if cleanName == [] || s.isCreatingProject || NameTaken(s.projects, cleanName) then s
    else Placed(s, cleanName, now, save)
  }

  /** The placeholder put first, then renamed or removed as the save answered. */
  function Placed(s: Screen, cleanName: string, now: int, save: Result<Option<string>, string>): (r: Screen)
    ensures r == s.(projects := r.projects, currentProjectId := r.currentProjectId)
    ensures save.Ok? <==> r.currentProjectId.Some?
    ensures save.Ok? ==> r.projects != [] && r.projects[0].name == cleanName
  {
    var tempId := TempPrefix + IntToString(now);
    var placed := [NewProject(tempId, cleanName, now)] + s.projects;
    match save
    case Err(_) => s.(projects := Filter(placed, ProjectIdIsNot(tempId)), currentProjectId := None)
    case Ok(realId) =>
      if realId.Some? && realId.value != [] && realId.value != tempId then
        s.(projects := Renamed(placed, tempId, realId.value), currentProjectId := Some(realId.value))
      else s.(projects := placed, currentProjectId := Some(tempId))
  }

  /** What creation does to the project list when no project carries the temporary id yet:
      nothing when refused or when the save fails, and otherwise one new project, first, with
      the trimmed name, under the saved id or the temporary one. */
  lemma CreateOutcome(s: Screen, name: string, now: int, save: Result<Option<string>, string>)
    requires forall p :: p in s.projects ==> p.id != TempPrefix + IntToString(now)
    ensures var r := AfterCreate(s, name, now, save);
            r.user == s.user && r.isCreatingProject == s.isCreatingProject &&
            (Trim(name) == [] || s.isCreatingProject || NameTaken(s.projects, Trim(name)) || save.Err? ==>
               r.projects == s.projects) &&
            (save.Err? ==> r.currentProjectId == (if r == s then s.currentProjectId else None)) &&
            (!(Trim(name) == [] || s.isCreatingProject || NameTaken(s.projects, Trim(name))) && save.Ok? ==>
               |r.projects| == |s.projects| + 1 && r.projects[1..] == s.projects &&
               r.projects[0].name == Trim(name) && Some(r.projects[0].id) == r.currentProjectId)
  {
    var cleanName := Trim(name);
    if !(cleanName == [] || s.isCreatingProject || NameTaken(s.projects, cleanName)) {
      var tempId := TempPrefix + IntToString(now);
      var placeholder := NewProject(tempId, cleanName, now);
      match save
      case Err(_) =>
        FailedCreateRestores(s.projects, placeholder);
      case Ok(realId) =>
        if realId.Some? && realId.value != [] && realId.value != tempId {
          SavedCreateRenamesPlaceholder(s.projects, placeholder, realId.value);
        }
    }
  }

  // ---------------------------------------------------------------- generation

  /** A generation starts only when none is running and there is an instruction, a context
      or an attached file. */
  predicate CanGenerate(isGenerating: bool, input: string, context: string, files: seq<AttachedFile>)
    ensures CanGenerate(isGenerating, input, context, files) ==> !isGenerating
    ensures !isGenerating && files != [] ==> CanGenerate(isGenerating, input, context, files)
    ensures input == [] && context == [] && files == [] ==> !CanGenerate(isGenerating, input, context, files)
  {
    !isGenerating && !(Trim(input) == [] && Trim(context) == [] && files == [])
  }

  /** The quota after a successful generation: one less, never below zero. */
  function NextQuota(q: int): (r: int)
    ensures r >= 0
    ensures q > 0 ==> r == q - 1
    ensures q <= 0 ==> r == 0
  {
    if q - 1 > 0 then q - 1 else 0
  }

  /** The quota after `n` successful generations: it never grows from a non-negative start,
      and it is never negative once one generation has run. */
  function QuotaAfter(q: int, n: nat): (r: int)
    ensures n > 0 ==> r >= 0
    ensures q >= 0 ==> r <= q
  {
    if n == 0 then q else NextQuota(QuotaAfter(q, n - 1))
  }

  /** After `n > 0` successful generations the quota is the old one less `n`, floored at 0. */
  lemma {:induction false} QuotaAfterFloors(q: int, n: nat)
    requires n > 0
    ensures QuotaAfter(q, n) == if q - n > 0 then q - n else 0
  {
    if n > 1 {
      QuotaAfterFloors(q, n - 1);
    }
  }

  // ---------------------------------------------------------------- the component state

  /** The state the modelled handlers read and write. */
  datatype Screen = Screen(projects: seq<Project>, currentProjectId: Option<string>,
                           socialNotes: seq<SocialNote>, selected: set<string>,
                           attachedFiles: seq<AttachedFile>, drafts: seq<NoteDraft>,
                           publishedHistory: seq<PublishedRecord>, contextText: string,
                           currentInput: string, isGenerating: bool, isCreatingProject: bool, user: User)

  class Workstation {
    var projects: seq<Project>
    var currentProjectId: Option<string>
    var socialNotes: seq<SocialNote>
    var selected: set<string>
    var attachedFiles: seq<AttachedFile>
    var drafts: seq<NoteDraft>
    var publishedHistory: seq<PublishedRecord>
    var contextText: string
    var currentInput: string
    var isGenerating: bool
    var isCreatingProject: bool
    var user: User

    function View(): Screen
      reads this
    {
      Screen(projects, currentProjectId, socialNotes, selected, attachedFiles, drafts, publishedHistory,
             contextText, currentInput, isGenerating, isCreatingProject, user)
    }

    constructor(user: User, projects: seq<Project>)
      ensures View() == Screen(projects, None, [], {}, [], [], [], "", "", false, false, user)
    {
      this.projects := projects;
      this.currentProjectId := None;
      this.socialNotes := [];
      this.selected := {};
      this.attachedFiles := [];
      this.drafts := [];
      this.publishedHistory := [];
      this.contextText := "";
      this.currentInput := "";
      this.isGenerating := false;
      this.isCreatingProject := false;
      this.user := user;
    }

    /** `toggleMaterialSelection`. */
    method ToggleMaterialSelection(noteId: string)
      modifies this
      ensures View() == old(View()).(selected := Toggled(old(selected), noteId))
    {
      if noteId in selected {
        selected := selected - {noteId};
      } else {
        selected := selected + {noteId};
      }
    }

    /** `removeSocialNote`: drops the note and its selection. */
    method RemoveSocialNote(noteId: string)
      modifies this
      ensures View() == old(View()).(socialNotes := Filter(old(socialNotes), NoteIdIsNot(noteId)),
                                     selected := old(selected) - {noteId})
      ensures forall n :: n in socialNotes <==> n in old(socialNotes) && n.noteId != noteId
    {
      socialNotes := Filter(socialNotes, NoteIdIsNot(noteId));
      selected := selected - {noteId};
    }

    /** `removeFile`. */
    method RemoveFile(fileId: string)
      modifies this
      ensures View() == old(View()).(attachedFiles := Filter(old(attachedFiles), FileIdIsNot(fileId)))
      ensures forall f :: f in attachedFiles <==> f in old(attachedFiles) && f.id != fileId
    {
      attachedFiles := Filter(attachedFiles, FileIdIsNot(fileId));
    }

    /** `deleteDraft`. */
    method DeleteDraft(draftId: string)
      modifies this
      ensures View() == old(View()).(drafts := Filter(old(drafts), DraftIdIsNot(draftId)))
      ensures forall d :: d in drafts <==> d in old(drafts) && d.id != draftId
    {
      drafts := Filter(drafts, DraftIdIsNot(draftId));
    }

    /** `batchDeletePublishedRecords`: removes the records with the given ids from the history
        and from the current project, whose update time becomes `now`. */
    method BatchDeletePublishedRecords(ids: seq<string>, now: int)
      modifies this
      ensures var history := Filter(old(publishedHistory), RecordIdNotIn(set i | i in ids));
              View() == old(View()).(publishedHistory := history,
                                     projects := WithHistory(old(projects), old(currentProjectId), history, now))
      ensures forall r :: r in publishedHistory <==> r in old(publishedHistory) && r.id !in ids
    {
      var idSet := set i | i in ids;
      var history := Filter(publishedHistory, RecordIdNotIn(idSet));
      publishedHistory := history;
      projects := WithHistory(projects, currentProjectId, history, now);
    }

    /** `deletePublishedRecord`: the batch delete of one id. */
    method DeletePublishedRecord(id: string, now: int)
      modifies this
      ensures var history := Filter(old(publishedHistory), RecordIdNotIn({id}));
              View() == old(View()).(publishedHistory := history,
                                     projects := WithHistory(old(projects), old(currentProjectId), history, now))
      ensures forall r :: r in publishedHistory <==> r in old(publishedHistory) && r.id != id
    {
      assert (set i | i in [id]) == {id};
      BatchDeletePublishedRecords([id], now);
    }

    /** `handleBatchExtractInternal`: fetches, in order, the links that contain no saved note's
        id, and puts the notes fetched in front of the saved ones. */
    method BatchExtract(urls: seq<string>, fetch: string -> Result<Fetched, string>, now: int)
      returns (added: nat, failed: nat)
      modifies this
      ensures var batch := FetchAll(Filter(urls, IsNewUrl(old(socialNotes))), fetch, now);
              added == |batch.0| && failed == batch.1 &&
              View() == old(View()).(socialNotes := batch.0 + old(socialNotes))
    {
      added, failed := 0, 0;
      var newUrls := Filter(urls, IsNewUrl(socialNotes));
      if urls == [] || newUrls == [] {
        assert FetchAll(newUrls, fetch, now).0 + socialNotes == socialNotes;
        return;
      }
      var newNotes;
      newNotes, failed := FetchEach(newUrls, fetch, now);
      if newNotes != [] {
        socialNotes := newNotes + socialNotes;
      }
      added := |newNotes|;
    }

    /** `createNewProject`, stepping the state as `AfterCreate` describes. */
    method CreateNewProject(name: string, now: int, save: Result<Option<string>, string>)
      modifies this
      ensures View() == AfterCreate(old(View()), name, now, save)
    {
      var cleanName := Trim(name);
      if cleanName == [] {
        return;
      }
      if isCreatingProject {
        return;
      }
      if NameTaken(projects, cleanName) {
        return;
      }
      Place(cleanName, now, save);
    }

    /** The part of `createNewProject` after its guards. */
    method Place(cleanName: string, now: int, save: Result<Option<string>, string>)
      requires !isCreatingProject
      modifies this
      ensures View() == Placed(old(View()), cleanName, now, save)
    {
      isCreatingProject := true;
      var tempId := TempPrefix + IntToString(now);
      var newP := NewProject(tempId, cleanName, now);
      projects := [newP] + projects;
      currentProjectId := Some(tempId);
      match save {
        case Ok(realId) =>
          if realId.Some? && realId.value != [] && realId.value != tempId {
            projects := Renamed(projects, tempId, realId.value);
            currentProjectId := Some(realId.value);
          }
        case Err(_) =>
          projects := Filter(projects, ProjectIdIsNot(tempId));
          currentProjectId := None;
      }
      isCreatingProject := false;
    }

    /** `handleGenerate`: without work to do, or while a generation runs, nothing happens;
        otherwise the input is cleared and, when the generation succeeds, one unit of quota is
        spent. */
    method HandleGenerate(succeeded: bool)
      modifies this
      ensures !old(CanGenerate(isGenerating, currentInput, contextText, attachedFiles)) ==> View() == old(View())
      ensures old(CanGenerate(isGenerating, currentInput, contextText, attachedFiles)) ==>
                View() == old(View()).(currentInput := "",
                                       user := if succeeded then old(user).(quotaRemaining := NextQuota(old(user).quotaRemaining))
                                               else old(user))
      ensures old(user).quotaRemaining >= 0 ==> user.quotaRemaining >= 0
    {
      if isGenerating {
        return;
      }
      if Trim(currentInput) == [] && Trim(contextText) == [] && attachedFiles == [] {
        return;
      }
      currentInput := "";
      isGenerating := true;
      if succeeded {
        user := user.(quotaRemaining := NextQuota(user.quotaRemaining));
      }
      isGenerating := false;
    }
  }
}
