/**
 The single entity of the notes app and the invariants stated over a
 collection of notes.
 */
module Notes {
  import opened Wrappers

  /**
   A note as the form builds it and the store keeps it. The subtitle is
   optional in the app's record type, so an absent subtitle is `None`;
   every other field is always present (possibly as the empty string).
   */
  datatype Note = Note(
    id: int,
    title: string,
    subtitle: Option<string>,
    description: string,
    color: string)

  /** The identifiers occurring in a collection. */
  function Ids(notes: seq<Note>): set<int> {
    set i | 0 <= i < |notes| :: notes[i].id
  }

  /** No two positions of the collection carry the same identifier. */
  predicate UniqueIds(notes: seq<Note>) {
    forall i, j :: 0 <= i < j < |notes| ==> notes[i].id != notes[j].id
  }

  /** Every note in the collection has a non-empty title. */
  predicate TitlesPresent(notes: seq<Note>) {
    forall i :: 0 <= i < |notes| ==> notes[i].title != ""
  }
}
