/** `GET` and `PATCH` on a single note. */
module NotesId {
  import opened Wrappers
  import opened Db

  /** The `EditNote` body: every field is optional. */
  datatype EditNote = EditNote(title: Option<string>, content: Option<string>, public: Option<bool>)

  const NoChange := EditNote(None, None, None)

  /** `get_note`: any stored note, with no ownership or visibility check. */
  function GetNote(notes: map<int, Note>, id: int): (r: Result<Note, ApiError>)
    ensures r.Err? <==> id !in notes
    ensures r.Err? ==> r.error == NotFound("Note not found")
    ensures r.Ok? ==> r.value == notes[id]
  {
    if id in notes then Ok(notes[id]) else Err(NotFound("Note not found"))
  }

  /** The patch applied to a stored row: each present field replaces the stored
      one, each absent field keeps it. */
  function ApplyEditNote(n: Note, patch: EditNote): (r: Note)
    ensures r.id == n.id && r.userId == n.userId && r.createdAt == n.createdAt
    ensures r.title == patch.title.GetOr(n.title)
    ensures r.content == patch.content.GetOr(n.content)
    ensures r.public == patch.public.GetOr(n.public)
  {
    var n := if patch.content.Some? then n.(content := patch.content.value) else n;
    var n := if patch.title.Some? then n.(title := patch.title.value) else n;
    if patch.public.Some? then n.(public := patch.public.value) else n
  }

  /** An empty patch changes nothing. */
  lemma EmptyEditIsIdentity(n: Note)
    ensures ApplyEditNote(n, NoChange) == n
  {
  }

  /** Sending the same patch twice is the same as sending it once. */
  lemma EditIdempotent(n: Note, patch: EditNote)
    ensures ApplyEditNote(ApplyEditNote(n, patch), patch) == ApplyEditNote(n, patch)
  {
  }

  /** Two patches in a row act as one patch whose later fields win. */
  lemma EditsCompose(n: Note, first: EditNote, second: EditNote)
    ensures ApplyEditNote(ApplyEditNote(n, first), second)
         == ApplyEditNote(n, EditNote(
              if second.title.Some? then second.title else first.title,
              if second.content.Some? then second.content else first.content,
              if second.public.Some? then second.public else first.public))
  {
  }

  /** `edit_note`: a missing note is NotFound before ownership is looked at; a
      non-owner is refused and nothing changes; the owner's patch rewrites that
      row only and the updated row is returned. */
  method EditNoteHandler(db: Database, caller: int, id: int, patch: EditNote) returns (r: Result<Note, ApiError>)
    requires db.Valid()
    modifies db`notes
    ensures db.Valid()
    ensures id !in old(db.notes) ==> r == Err(NotFound("Note not found")) && db.notes == old(db.notes)
    ensures id in old(db.notes) && old(db.notes)[id].userId != caller ==>
      r == Err(Unauthorized("You do not have permission to edit this note")) && db.notes == old(db.notes)
    ensures id in old(db.notes) && old(db.notes)[id].userId == caller ==>
      && r == Ok(ApplyEditNote(old(db.notes)[id], patch))
      && db.notes == old(db.notes)[id := r.value]
  {
    if id !in db.notes {
      return Err(NotFound("Note not found"));
    }
    var note := db.notes[id];
    if note.userId != caller {
      return Err(Unauthorized("You do not have permission to edit this note"));
    }
    if patch.content.Some? {
      note := note.(content := patch.content.value);
    }
    if patch.title.Some? {
      note := note.(title := patch.title.value);
    }
    if patch.public.Some? {
      note := note.(public := patch.public.value);
    }
    db.notes := db.notes[id := note];
    r := Ok(note);
  }

  /** After a successful edit, reading the note back gives the edited row. */
  method EditThenGetScenario(caller: int, title: string) returns (before: Result<Note, ApiError>, after: Result<Note, ApiError>)
    ensures before.Ok? && after.Ok?
    ensures after.value == before.value.(title := title)
  {
    var db := new Database(map[], map[]);
    db.notes := map[1 := Note(1, caller, 0, "draft", "body", false)];
    db.nextNoteId := 2;
    before := GetNote(db.notes, 1);
    var edited := EditNoteHandler(db, caller, 1, EditNote(Some(title), None, None));
    after := GetNote(db.notes, 1);
  }
}
