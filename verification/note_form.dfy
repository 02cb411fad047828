/**
 The create/edit form: how its fields start out, what pressing "save"
 does, and what pressing "cancel" does. The handlers' side effects
 (an alert, the `onSaveNote` callback, navigation) are returned as a list
 of effects in the order the handler performs them.
 */
module NoteForm {
  import opened Wrappers
  import opened Notes

  /** Colour a note gets when neither the user nor the edited note supplies one. */
  const DefaultColor: string := "yellow"

  /** Title and message of the alert shown when saving without a title. */
  const ErrorTitle: string := "Error"
  const TitleRequired: string := "Title is required!"

  /** The form's state: the four text fields being edited. */
  datatype Fields = Fields(title: string, subtitle: string, description: string, color: string)

  /** An observable action of a form handler. */
  datatype Effect =
    | Alert(heading: string, message: string)
    | OnSaveNote(note: Note)
    | NavigateHome

  /** JavaScript `v || fallback` on a possibly undefined string: `undefined` and `""` are falsy. */
  function Or(v: Option<string>, fallback: string): string {
    match v
    case Some(s) => if s == "" then fallback else s
    case None => fallback
  }

  /**
   Initial field values, `target?.field || default`: each copied from the
   note being edited when it is truthy, otherwise `""`, or `"yellow"` for
   the colour.
   */
  function InitialFields(target: Option<Note>): (f: Fields)
    ensures target.None? ==> f == Fields("", "", "", DefaultColor)
    ensures target.Some? ==> f.title == target.value.title
    ensures target.Some? ==> f.subtitle == target.value.subtitle.GetOr("")
    ensures target.Some? ==> f.description == target.value.description
    ensures target.Some? && target.value.color != "" ==> f.color == target.value.color
    ensures target.Some? && target.value.color == "" ==> f.color == DefaultColor
    ensures f.color != ""
  {
    match target
    case Some(t) =>
      // `s || ""` is `s` itself for a string that is always present.
      Fields(t.title, Or(t.subtitle, ""), t.description, Or(Some(t.color), DefaultColor))
    case None =>
      Fields("", "", "", DefaultColor)
  }

  /** `target?.id || now`: a zero id is falsy, so it does not survive. */
  function NoteId(target: Option<Note>, now: int): int {
    match target
    case Some(t) => if t.id == 0 then now else t.id
    case None => now
  }

  /**
   The note `saveNote` hands to `onSaveNote`, or `None` when the empty
   title makes it stop. `now` is the clock reading `Date.now()`.
   */
  function Save(fields: Fields, target: Option<Note>, now: int): (r: Option<Note>)
    ensures r.None? <==> fields.title == ""
    ensures r.Some? ==> r.value.title == fields.title && r.value.title != ""
    ensures r.Some? ==> r.value.subtitle == Some(fields.subtitle)
    ensures r.Some? ==> r.value.description == fields.description
    ensures r.Some? ==> r.value.color == fields.color
    ensures r.Some? && target.Some? && target.value.id != 0 ==> r.value.id == target.value.id
    ensures r.Some? && (target.None? || target.value.id == 0) ==> r.value.id == now
  {
    if fields.title == "" then None
    else Some(Note(NoteId(target, now), fields.title, Some(fields.subtitle), fields.description, fields.color))
  }

  /** How many times a list of effects calls `onSaveNote`. */
  function SaveCount(effects: seq<Effect>): nat
    decreases |effects|
  {
    if |effects| == 0 then 0
    else (if effects[0].OnSaveNote? then 1 else 0) + SaveCount(effects[1..])
  }

  /**
   The `saveNote` handler: with an empty title it alerts and stays on the
   form; otherwise it calls `onSaveNote` once with the built note and then
   navigates back to the list.
   */
  function SaveNote(fields: Fields, target: Option<Note>, now: int): (effects: seq<Effect>)
    ensures fields.title == "" ==> effects == [Alert(ErrorTitle, TitleRequired)]
    ensures fields.title != "" ==> effects == [OnSaveNote(Save(fields, target, now).value), NavigateHome]
    ensures SaveCount(effects) == if fields.title == "" then 0 else 1
    ensures NavigateHome in effects <==> fields.title != ""
  {
    match Save(fields, target, now)
    case None => [Alert(ErrorTitle, TitleRequired)]
    case Some(note) =>
      var effects := [OnSaveNote(note), NavigateHome];
      assert effects[1..] == [NavigateHome];
      assert SaveCount([NavigateHome]) == 0 by {
        assert [NavigateHome][1..] == [];
      }
      effects
  }

  /** The `cancelNote` handler: back to the list, nothing saved. */
  function CancelNote(): (effects: seq<Effect>)
    ensures SaveCount(effects) == 0
    ensures NavigateHome in effects
    ensures forall e :: e in effects ==> !e.Alert?
  {
    [NavigateHome]
  }

  /**
   Opening a note for editing and saving it untouched gives back exactly
   that note, unless one of the truthiness fallbacks rewrites a field: a
   missing subtitle becomes `""`, an empty colour becomes `"yellow"`, a
   zero id becomes the clock reading, and an empty title is refused.
   */
  lemma EditUnchangedRoundTrip(t: Note, now: int)
    ensures Save(InitialFields(Some(t)), Some(t), now) == Some(t)
        <==> t.title != "" && t.subtitle.Some? && t.color != "" && (t.id != 0 || now == 0)
  {
  }
}
