/**
 The app root's note collection and its one mutation, `handleSaveNote`:
 insert-or-replace keyed by the note's identifier.
 */
module NoteStore {
  import opened Wrappers
  import opened Notes

  /** The first note carrying `id`, as `notes.find(note => note.id === id)` returns it. */
  function Find(notes: seq<Note>, id: int): (r: Option<Note>)
    ensures r.Some? <==> id in Ids(notes)
    ensures r.Some? ==> r.value.id == id
    ensures r.Some? ==> exists i :: 0 <= i < |notes| && notes[i] == r.value && IdAbsentBefore(notes, id, i)
  {
    if |notes| == 0 then None
    else if notes[0].id == id then
      assert IdAbsentBefore(notes, id, 0);
      Some(notes[0])
    else
      var r := Find(notes[1..], id);
      assert Ids(notes) == {notes[0].id} + Ids(notes[1..]) by {
        assert forall i :: 0 < i < |notes| ==> notes[i] == notes[1..][i - 1];
      }
      if r.Some? then
        var i :| 0 <= i < |notes[1..]| && notes[1..][i] == r.value && IdAbsentBefore(notes[1..], id, i);
        assert notes[i + 1] == r.value;
        assert IdAbsentBefore(notes, id, i + 1) by {
          assert forall j :: 0 < j < i + 1 ==> notes[j] == notes[1..][j - 1];
        }
        r
      else
        r
  }

  /** No note before position `i` carries `id`. */
  predicate IdAbsentBefore(notes: seq<Note>, id: int, i: int)
    requires 0 <= i <= |notes|
  {
    forall j :: 0 <= j < i ==> notes[j].id != id
  }

  /**
   `notes.map(note => note.id === n.id ? n : note)`: every note carrying
   `n.id` becomes `n`, every other note stays where it is.
   */
  function ReplaceById(notes: seq<Note>, n: Note): (r: seq<Note>)
    ensures |r| == |notes|
    ensures forall i :: 0 <= i < |notes| && notes[i].id == n.id ==> r[i] == n
    ensures forall i :: 0 <= i < |notes| && notes[i].id != n.id ==> r[i] == notes[i]
  {
    if |notes| == 0 then []
    else [if notes[0].id == n.id then n else notes[0]] + ReplaceById(notes[1..], n)
  }

  /**
   `handleSaveNote`: when some note already carries `n.id`, all such notes
   are replaced by `n` in place; otherwise `n` is appended at the end.
   */
  function Upsert(notes: seq<Note>, n: Note): (r: seq<Note>)
    ensures n.id in Ids(notes) ==> |r| == |notes|
    ensures n.id !in Ids(notes) ==> r == notes + [n]
    ensures forall i :: 0 <= i < |notes| && notes[i].id == n.id ==> r[i] == n
    ensures forall i :: 0 <= i < |notes| && notes[i].id != n.id ==> r[i] == notes[i]
    ensures Ids(r) == Ids(notes) + {n.id}
  {
    if Find(notes, n.id).Some? then ReplaceById(notes, n)
    else
      var r := notes + [n];
      assert r[|notes|] == n;
      assert forall i :: 0 <= i < |notes| ==> r[i] == notes[i];
      r
  }

  /** The collection read as a lookup table: each identifier to the note `find` returns for it. */
  function View(notes: seq<Note>): map<int, Note> {
    map k | k in Ids(notes) :: Find(notes, k).value
  }

  /** A note at position `i` that is the first to carry its id is the one `find` returns. */
  lemma FindReturnsFirst(notes: seq<Note>, i: int)
    requires 0 <= i < |notes|
    requires IdAbsentBefore(notes, notes[i].id, i)
    ensures Find(notes, notes[i].id) == Some(notes[i])
  {
  }

  /** After an upsert, looking up `n.id` yields `n` and every other lookup is as before. */
  lemma FindAfterUpsert(notes: seq<Note>, n: Note, k: int)
    ensures Find(Upsert(notes, n), k) == if k == n.id then Some(n) else Find(notes, k)
  {
  }

  /** Read as a lookup table, an upsert is a map update at `n.id`. */
  lemma ViewAfterUpsert(notes: seq<Note>, n: Note)
    ensures View(Upsert(notes, n)) == View(notes)[n.id := n]
  {
    var r := Upsert(notes, n);
    forall k | k in Ids(r)
      ensures View(r)[k] == View(notes)[n.id := n][k]
    {
      FindAfterUpsert(notes, n, k);
    }
  }

  /** Upserting into a collection with distinct ids keeps the ids distinct. */
  lemma UpsertPreservesUniqueIds(notes: seq<Note>, n: Note)
    requires UniqueIds(notes)
    ensures UniqueIds(Upsert(notes, n))
  {
  }

  /** Upserting the same note twice is the same as upserting it once. */
  lemma UpsertIdempotent(notes: seq<Note>, n: Note)
    ensures Upsert(Upsert(notes, n), n) == Upsert(notes, n)
  {
  }

  /** Saving back a note the collection already holds leaves the collection as it is. */
  lemma UpsertExistingIsNoop(notes: seq<Note>, n: Note)
    requires UniqueIds(notes)
    requires n in notes
    ensures Upsert(notes, n) == notes
  {
  }

  /** Upserting a titled note keeps every title of the collection non-empty. */
  lemma UpsertPreservesTitlesPresent(notes: seq<Note>, n: Note)
    requires TitlesPresent(notes)
    requires n.title != ""
    ensures TitlesPresent(Upsert(notes, n))
  {
  }

  /** A run of saves, applied one after another in order. */
  function UpsertAll(notes: seq<Note>, batch: seq<Note>): seq<Note>
    decreases |batch|
  {
    if |batch| == 0 then notes else UpsertAll(Upsert(notes, batch[0]), batch[1..])
  }

  /** However many saves are applied, a collection with distinct ids keeps them distinct. */
  lemma {:induction false} UpsertAllPreservesUniqueIds(notes: seq<Note>, batch: seq<Note>)
    requires UniqueIds(notes)
    ensures UniqueIds(UpsertAll(notes, batch))
    decreases |batch|
  {
    if |batch| > 0 {
      UpsertPreservesUniqueIds(notes, batch[0]);
      UpsertAllPreservesUniqueIds(Upsert(notes, batch[0]), batch[1..]);
    }
  }

  /** After a run of saves, the ids are the ids before plus those of the saved notes. */
  lemma {:induction false} UpsertAllIds(notes: seq<Note>, batch: seq<Note>)
    ensures Ids(UpsertAll(notes, batch)) == Ids(notes) + Ids(batch)
    decreases |batch|
  {
    if |batch| > 0 {
      UpsertAllIds(Upsert(notes, batch[0]), batch[1..]);
      assert Ids(batch) == {batch[0].id} + Ids(batch[1..]) by {
        assert forall i :: 0 < i < |batch| ==> batch[i] == batch[1..][i - 1];
      }
    }
  }
}
