/**
 The application root: it owns the note collection and passes
 `handleSaveNote` (the store's upsert) to the form as `onSaveNote`.
 Here the form's effects are played against the collection.
 */
module App {
  import opened Wrappers
  import opened Notes
  import opened NoteStore
  import opened NoteForm

  /**
   The collection after a handler's effects: each `onSaveNote` call upserts
   its note into the collection left by the previous one. The app's
   handlers make at most one such call (`SaveNote`, `CancelNote`); a
   handler making two would, in the app, have both start from the list
   captured when the screen last rendered, which this does not model.
   */
  function Dispatch(notes: seq<Note>, effects: seq<Effect>): (r: seq<Note>)
    ensures SaveCount(effects) == 0 ==> r == notes
    ensures Ids(notes) <= Ids(r)
    decreases |effects|
  {
    if |effects| == 0 then notes
    else
      var next := if effects[0].OnSaveNote? then Upsert(notes, effects[0].note) else notes;
      Dispatch(next, effects[1..])
  }

  /** Playing a list of effects against a collection with distinct ids keeps them distinct. */
  lemma {:induction false} DispatchPreservesUniqueIds(notes: seq<Note>, effects: seq<Effect>)
    requires UniqueIds(notes)
    ensures UniqueIds(Dispatch(notes, effects))
    decreases |effects|
  {
    if |effects| > 0 {
      var next := if effects[0].OnSaveNote? then Upsert(notes, effects[0].note) else notes;
      if effects[0].OnSaveNote? {
        UpsertPreservesUniqueIds(notes, effects[0].note);
      }
      DispatchPreservesUniqueIds(next, effects[1..]);
    }
  }

  /**
   Saving from the form: an empty title leaves the collection unchanged;
   any other title upserts the built note exactly once, and a collection
   with distinct ids keeps them distinct.
   */
  lemma SaveFromForm(notes: seq<Note>, fields: Fields, target: Option<Note>, now: int)
    requires UniqueIds(notes)
    ensures var r := Dispatch(notes, SaveNote(fields, target, now));
      && (fields.title == "" ==> r == notes)
      && (fields.title != "" ==> r == Upsert(notes, Save(fields, target, now).value))
      && UniqueIds(r)
  {
  }

  /** Cancelling the form never touches the collection. */
  lemma CancelLeavesNotesUnchanged(notes: seq<Note>)
    ensures Dispatch(notes, CancelNote()) == notes
  {
  }

  /**
   Editing a note the collection holds and saving it with its fields as
   they were opened leaves the collection unchanged, provided none of the
   truthiness fallbacks rewrites the note.
   */
  lemma EditUnchangedIsNoop(notes: seq<Note>, t: Note, now: int)
    requires UniqueIds(notes)
    requires t in notes
    requires t.title != "" && t.subtitle.Some? && t.color != "" && t.id != 0
    ensures Dispatch(notes, SaveNote(InitialFields(Some(t)), Some(t), now)) == notes
  {
  }

  /**
   A note stored with id 0 does not keep its id when edited, so saving it
   appends a second copy under the clock reading instead of replacing it.
   */
  lemma EditOfZeroIdAppends(notes: seq<Note>, t: Note, now: int)
    requires UniqueIds(notes)
    requires t in notes && t.id == 0
    requires t.title != "" && now !in Ids(notes)
    ensures var r := Dispatch(notes, SaveNote(InitialFields(Some(t)), Some(t), now));
      && |r| == |notes| + 1
      && t in r
      && r[|notes|].id == now
  {
  }

  /** One press of a form button: save (with the fields and the clock reading at that moment) or cancel. */
  datatype Submission =
    | SavePressed(fields: Fields, target: Option<Note>, now: int)
    | CancelPressed

  /** The effects of one button press. */
  function Effects(s: Submission): seq<Effect> {
    match s
    case SavePressed(fields, target, now) => SaveNote(fields, target, now)
    case CancelPressed => CancelNote()
  }

  /** The collection after a session of button presses, starting from `notes`. */
  function Run(notes: seq<Note>, session: seq<Submission>): seq<Note>
    decreases |session|
  {
    if |session| == 0 then notes
    else Run(Dispatch(notes, Effects(session[0])), session[1..])
  }

  /**
   However the form is used, the collection never holds two notes with the
   same id nor a note without a title, starting from a collection that
   satisfies both (the app starts from the empty one).
   */
  lemma {:induction false} RunPreservesInvariants(notes: seq<Note>, session: seq<Submission>)
    requires UniqueIds(notes) && TitlesPresent(notes)
    ensures UniqueIds(Run(notes, session)) && TitlesPresent(Run(notes, session))
    decreases |session|
  {
    if |session| > 0 {
      var s := session[0];
      var next := Dispatch(notes, Effects(s));
      if s.SavePressed? {
        SaveFromForm(notes, s.fields, s.target, s.now);
        if s.fields.title != "" {
          UpsertPreservesTitlesPresent(notes, Save(s.fields, s.target, s.now).value);
        }
      }
      RunPreservesInvariants(next, session[1..]);
    }
  }

  /** Creating "Groceries" on an empty collection stores one note with the defaults filled in. */
  lemma CreateOnEmptyScenario(now: int)
    ensures var fields := InitialFields(None).(title := "Groceries", description := "Milk, eggs");
      Run([], [SavePressed(fields, None, now)])
        == [Note(now, "Groceries", Some(""), "Milk, eggs", DefaultColor)]
  {
  }

  /** Editing the first of two notes replaces it in place and keeps the order. */
  lemma EditKeepsOrderScenario(now: int)
    ensures var a := Note(1, "A", None, "", DefaultColor);
      var b := Note(2, "B", None, "", DefaultColor);
      var fields := InitialFields(Some(a)).(title := "A-edited");
      Run([a, b], [SavePressed(fields, Some(a), now)])
        == [Note(1, "A-edited", Some(""), "", DefaultColor), b]
  {
  }

  /** Saving with an empty title on an empty collection leaves it empty and does not navigate. */
  lemma EmptyTitleScenario(now: int)
    ensures Run([], [SavePressed(InitialFields(None), None, now)]) == []
    ensures NavigateHome !in SaveNote(InitialFields(None), None, now)
  {
  }
}
