# Notes app: note collection and note form

A model of the logic inside a two-screen React Native notes app. The app
root holds an in-memory list of notes. The form screen creates a note or
edits an existing one, and hands the result to the root's
`handleSaveNote`. That handler inserts the note, or replaces the note that
has the same id. Everything else in the app is layout and styling.

The model has these modules:

- `Wrappers` (`wrappers.dfy`): `Option`, which stands for JavaScript's
  `undefined` and for a rejected save.
- `Notes` (`notes.dfy`): the `Note` record and the collection invariants.
  The invariants are distinct ids (`UniqueIds`) and non-empty titles
  (`TitlesPresent`).
- `NoteStore` (`note_store.dfy`): `handleSaveNote` as the pure function
  `Upsert`, built from `Find` (the array's `find`) and `ReplaceById` (the
  array's `map`). `View` reads the collection as a map from id to note and
  is the reference definition against which the upsert is proved.
- `NoteForm` (`note_form.dfy`): the form's initial field values, `Save`
  (the note that `saveNote` builds, or `None`), and the `saveNote` and
  `cancelNote` handlers. The handlers are modelled as the list of effects
  they perform: an alert, an `onSaveNote` call, or navigation home.
- `App` (`app.dfy`): how those effects are applied to the collection, and
  what holds over any session of form submissions.

Decisions:

- There is one `Note` record. Its `subtitle` is an `Option<string>`,
  because the app's record type declares it optional. `id` is an
  unbounded integer; `title`, `description` and `color` are plain strings.
- `Date.now()` becomes the parameter `now`.
- JavaScript `||` truthiness is kept. `""` and `undefined` fall back to
  the default, and an id of `0` is replaced by `now`.
- One might expect an edited note always to keep its id. The code
  (app/AddNewNote.tsx:51) keeps it only when it is non-zero, and the model
  follows the code. `App.EditOfZeroIdAppends` shows the consequence: a
  note stored with id 0 is duplicated when it is edited. Every id comes
  from `Date.now()` or is copied from an earlier note, so a stored id is 0
  only if the clock read 0 when the note was created; this is an edge of
  the model, not a situation the running app reaches.
- A note saved from the form always has a subtitle: `""` when none was
  typed. It is never undefined.

## Model

| member | source | states |
|---|---|---|
| NoteStore.Find | app/App.tsx:24 | returns a note exactly when some note has the id; the returned note has that id and sits at the first position holding it |
| NoteStore.FindReturnsFirst | app/App.tsx:24 | a note with no earlier note of the same id is the one `find` returns for its id |
| NoteStore.ReplaceById | app/App.tsx:25 | the length is kept; every position whose id matches becomes the new note, and every other position is unchanged |
| NoteStore.Upsert | app/App.tsx:23-28 | for an id already present: same length, the new note whole (not merged) at every matching index, all other notes unchanged in place; for a new id: the old list followed by the note; in both cases the id set becomes the old ids plus the note's id |
| NoteStore.FindAfterUpsert | app/App.tsx:24-26 | after an upsert, looking up the note's id yields exactly that note, and looking up any other id gives the same answer as before |
| NoteStore.ViewAfterUpsert | app/App.tsx:23-28 | viewed as a map from id to note, an upsert is the map update at the note's id |
| NoteStore.UpsertPreservesUniqueIds | app/App.tsx:24-26 | a collection with pairwise-distinct ids still has them after an upsert |
| NoteStore.UpsertIdempotent | app/App.tsx:24-26 | upserting the same note twice gives the same collection as upserting it once |
| NoteStore.UpsertExistingIsNoop | app/App.tsx:24-25 | upserting a note that the id-unique collection already holds leaves the collection unchanged |
| NoteStore.UpsertPreservesTitlesPresent | app/App.tsx:24-26 | upserting a titled note into a collection where every note has a title keeps every title non-empty |
| NoteStore.UpsertAllPreservesUniqueIds | app/App.tsx:21-28 | any sequence of upserts keeps the ids distinct |
| NoteStore.UpsertAllIds | app/App.tsx:21-28 | after a sequence of upserts, the ids are the starting ids plus the ids of the upserted notes |
| NoteForm.InitialFields | app/AddNewNote.tsx:31-40 | create mode starts with empty fields and colour `"yellow"`. Edit mode copies the title and description, copies the subtitle or uses `""` when it is absent, and copies the colour when it is non-empty or uses `"yellow"` when it is `""`. The colour is never empty |
| NoteForm.Save | app/AddNewNote.tsx:44-56 | rejects the save exactly when the title is empty. Otherwise the note carries the four field values and a subtitle that is present. It keeps the edited note's id when that id is non-zero, and uses `now` in create mode or when the id is zero |
| NoteForm.SaveNote | app/AddNewNote.tsx:44-60 | with an empty title: only the "Error" / "Title is required!" alert, no `onSaveNote` call and no navigation. Otherwise: one `onSaveNote` call with the built note, then navigation home |
| NoteForm.CancelNote | app/AddNewNote.tsx:62-64 | calls `onSaveNote` zero times, shows no alert, and navigates home |
| NoteForm.EditUnchangedRoundTrip | app/AddNewNote.tsx:31-56 | opening a note and saving it untouched returns exactly that note if and only if it has a title, a subtitle and a colour, and its id is non-zero (or the clock reads 0) |
| App.Dispatch | app/App.tsx:23-36 | effects that make no `onSaveNote` call leave the collection unchanged; applying effects never removes an id |
| App.DispatchPreservesUniqueIds | app/App.tsx:23-36 | applying a list of effects, such as those of `SaveNote` or `CancelNote`, keeps the ids distinct |
| App.SaveFromForm | app/AddNewNote.tsx:44-60 | starting from distinct ids: an empty title leaves the collection unchanged; otherwise the result is the upsert of the built note; either way the ids stay distinct |
| App.CancelLeavesNotesUnchanged | app/AddNewNote.tsx:62-64 | cancelling never changes the collection |
| App.EditUnchangedIsNoop | app/AddNewNote.tsx:31-58 | editing a stored note and saving it untouched leaves the collection unchanged, unless a truthiness fallback rewrites the note |
| App.EditOfZeroIdAppends | app/AddNewNote.tsx:51 | editing a stored note whose id is 0 appends a copy under the clock reading and keeps the original |
| App.RunPreservesInvariants | app/App.tsx:21-36 | over any session of save and cancel presses, the collection keeps distinct ids and non-empty titles |
| App.CreateOnEmptyScenario | app/AddNewNote.tsx:31-58 | creating "Groceries" on an empty collection stores one note with id `now`, subtitle `""` and colour `"yellow"` |
| App.EditKeepsOrderScenario | app/App.tsx:24-25 | editing note 1 of the list [note 1, note 2] replaces it in place and keeps the order |
| App.EmptyTitleScenario | app/AddNewNote.tsx:45-48 | saving with an empty title on an empty collection leaves it empty and does not navigate |

## Left out

- app/HomeScreen.tsx: list rendering and navigation to the form. Its only
  logic, the display fallback `item.color || "yellow"`, is never stored.
- React state hooks, re-rendering, and stack navigation. The collection is
  a value passed in and returned. Navigation is an effect (`NavigateHome`)
  and is not interpreted further.
- `Alert.alert` is kept only as an effect carrying its two strings.
  Nothing is shown.
- `Date.now()` is the caller-supplied `now`. Nothing is proved about the
  uniqueness of fresh ids: two saves in the same millisecond can produce
  the same id.
- The text-field setters (`setTitle` and the others), the colour palette,
  `setColor` and all styles. These only replace a field value or draw the
  screen. `Fields` holds whatever the user last typed or picked.
- JavaScript numbers are modelled as unbounded integers, so `NaN`,
  fractional and out-of-range ids are not covered.
- The local `Note` types that differ between files are merged into one
  `Note`. The App.tsx type, which has no colour, is not modelled
  separately.
