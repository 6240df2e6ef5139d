/**
 * Doctors' notes on a child (server/controllers/noteController.js). Every
 * route is open to doctors and admins only; a doctor lists only the notes
 * they wrote, an admin all of them.
 */
module NoteController {
  import opened Common
  import opened Sorting
  import opened ChildModel
  import opened NoteModel
  import opened Store

  /** The query of `getNotesByChild`: the child's notes, narrowed to the caller's own for a doctor. */
  predicate ShownTo(caller: Actor, childId: Id, e: (Id, DoctorNote))
  {
    e.1.child == childId && (caller.role == Doctor ==> e.1.doctor == caller.id)
  }

  predicate NewestFirst(a: (Id, DoctorNote), b: (Id, DoctorNote))
  {
    a.1.createdAt >= b.1.createdAt
  }

  /**
   * `getNotesByChild`: 404 for an unknown child; otherwise the notes the
   * query selects, newest first. A doctor never sees a colleague's note.
   */
  function GetNotesByChild(children: map<Id, Child>, notes: map<Id, DoctorNote>, n: nat, caller: Actor, childId: Id)
    : (r: Result<seq<(Id, DoctorNote)>>)
    requires caller.role == Doctor || caller.role == Admin
    ensures r.Err? <==> childId !in children
    ensures r.Err? ==> r.error == NotFound
    ensures r.Ok? ==> SortedBy(r.value, NewestFirst)
    ensures r.Ok? ==> forall e :: e in r.value <==>
      e.0 in notes && e.0 < n && notes[e.0] == e.1 && ShownTo(caller, childId, e)
    ensures r.Ok? && caller.role == Doctor ==> forall e :: e in r.value ==> e.1.doctor == caller.id
  {
    if childId !in children then Err(NotFound)
    else
      var picked: seq<(Id, DoctorNote)> := Filter(Entries(notes, n), (e: (Id, DoctorNote)) => ShownTo(caller, childId, e));
      SortBySorted(picked, NewestFirst);
      assert forall e :: e in SortBy(picked, NewestFirst) <==> e in picked by {
        forall e ensures e in SortBy(picked, NewestFirst) <==> e in picked { SortByMembers(picked, NewestFirst, e); }
      }
      Ok(SortBy(picked, NewestFirst))
  }

  /**
   * The note `createNote` stores: 400 when the content is absent or only
   * spaces; otherwise the trimmed content, the category or "general", private,
   * written by the caller.
   */
  function NewNote(childId: Id, doctor: Id, content: Option<string>, category: Option<NoteCategory>, now: int)
    : (r: Result<DoctorNote>)
    ensures r.Err? <==> content.None? || IsBlank(content.value)
    ensures r.Err? ==> r.error == BadRequest
    ensures r.Ok? ==> r.value == DoctorNote(childId, doctor, Trim(content.value), Pick(category, General), true, now)
    ensures r.Ok? ==> r.value.content != ""
  {
    if content.None? || IsBlank(content.value) then Err(BadRequest)
    else Ok(DoctorNote(childId, doctor, Trim(content.value), Pick(category, General), true, now))
  }

  /** A stored note's content has no white space left to trim. */
  lemma NewNoteIsTrimmed(childId: Id, doctor: Id, content: Option<string>, category: Option<NoteCategory>, now: int)
    requires NewNote(childId, doctor, content, category, now).Ok?
    ensures var c := NewNote(childId, doctor, content, category, now).value.content;
      Trim(c) == c
  {
    TrimIdempotent(content.value);
  }

  /** `createNote`: the content is checked before the child is looked up (404); then the note is stored. */
  method CreateNote(db: Db, caller: Actor, childId: Id, content: Option<string>, category: Option<NoteCategory>, now: int)
    returns (r: Result<Id>)
    requires db.Valid()
    requires caller.role == Doctor || caller.role == Admin
    modifies db`notes, db`nextId
    ensures db.Valid()
    ensures NewNote(childId, caller.id, content, category, now).Err? ==> r == Err(BadRequest)
    ensures NewNote(childId, caller.id, content, category, now).Ok? && childId !in db.children ==> r == Err(NotFound)
    ensures r.Err? ==> db.notes == old(db.notes) && db.nextId == old(db.nextId)
    ensures r.Ok? ==> (r.value == old(db.nextId) && childId in db.children &&
      NewNote(childId, caller.id, content, category, now).Ok? &&
      db.notes == old(db.notes)[r.value := NewNote(childId, caller.id, content, category, now).value])
  {
    var note := NewNote(childId, caller.id, content, category, now);
    if note.Err? {
      return Err(note.error);
    }
    if childId !in db.children {
      return Err(NotFound);
    }
    var id := db.AddDoctorNote(note.value);
    r := Ok(id);
  }

  /** A note its author or an admin created is in the listing of the child for that author and for every admin. */
  lemma CreatedNoteListed(children: map<Id, Child>, notes: map<Id, DoctorNote>, n: nat, id: Id, note: DoctorNote, reader: Actor)
    requires id < n && note.child in children
    requires reader.role == Admin || (reader.role == Doctor && reader.id == note.doctor)
    ensures var r := GetNotesByChild(children, notes[id := note], n, reader, note.child);
      r.Ok? && (id, note) in r.value
  {
    var after := notes[id := note];
    assert ShownTo(reader, note.child, (id, note));
    var r := GetNotesByChild(children, after, n, reader, note.child);
    assert id in after && after[id] == note;
  }

  /** `updateNote`'s edit: a non-empty content is trimmed and replaces the old one, a given category replaces the old one. */
  function EditNote(note: DoctorNote, content: Option<string>, category: Option<NoteCategory>): (r: DoctorNote)
    ensures r.child == note.child && r.doctor == note.doctor && r.isPrivate == note.isPrivate && r.createdAt == note.createdAt
    ensures r.content == (if content.Some? && content.value != "" then Trim(content.value) else note.content)
    ensures r.category == Pick(category, note.category)
  {
    note.(content := if content.Some? && content.value != "" then Trim(content.value) else note.content,
          category := Pick(category, note.category))
  }

  /** An edit without fields keeps the note, and repeating an edit changes nothing more. */
  lemma EditNoteLaws(note: DoctorNote, content: Option<string>, category: Option<NoteCategory>)
    ensures EditNote(note, None, None) == note
    ensures EditNote(EditNote(note, content, category), content, category) == EditNote(note, content, category)
  {
  }

  /**
   * `updateNote`: 404 for an unknown note and 403 for anybody but its author,
   * admins included; otherwise the edit replaces it.
   */
  method UpdateNote(db: Db, caller: Actor, id: Id, content: Option<string>, category: Option<NoteCategory>)
    returns (r: Result<DoctorNote>)
    requires db.Valid()
    requires caller.role == Doctor || caller.role == Admin
    modifies db`notes
    ensures db.Valid()
    ensures id !in old(db.notes) ==> r == Err(NotFound)
    ensures id in old(db.notes) && old(db.notes)[id].doctor != caller.id ==> r == Err(Forbidden)
    ensures r.Err? ==> db.notes == old(db.notes)
    ensures r.Ok? ==> (id in old(db.notes) && old(db.notes)[id].doctor == caller.id &&
      r.value == EditNote(old(db.notes)[id], content, category) && db.notes == old(db.notes)[id := r.value])
  {
    if id !in db.notes {
      return Err(NotFound);
    }
    var note := db.notes[id];
    if note.doctor != caller.id {
      return Err(Forbidden);
    }
    var edited := EditNote(note, content, category);
    db.PutDoctorNote(id, edited);
    r := Ok(edited);
  }

  /** `deleteNote`: 404 for an unknown note, 403 unless the caller is an admin or its author; otherwise it goes. */
  method DeleteNote(db: Db, caller: Actor, id: Id) returns (r: Result<Id>)
    requires db.Valid()
    requires caller.role == Doctor || caller.role == Admin
    modifies db`notes
    ensures db.Valid()
    ensures id !in old(db.notes) ==> r == Err(NotFound)
    ensures id in old(db.notes) && caller.role != Admin && old(db.notes)[id].doctor != caller.id ==> r == Err(Forbidden)
    ensures r.Err? ==> db.notes == old(db.notes)
    ensures r.Ok? ==> (r.value == id && id in old(db.notes) &&
      (caller.role == Admin || old(db.notes)[id].doctor == caller.id) && db.notes == old(db.notes) - {id})
  {
    if id !in db.notes {
      return Err(NotFound);
    }
    if caller.role != Admin && db.notes[id].doctor != caller.id {
      return Err(Forbidden);
    }
    db.RemoveDoctorNote(id);
    r := Ok(id);
  }
}
