/** The trip-creation form (frontend/src/pages/CreateTrip.tsx): the list of
    selected destination ids, the checkbox toggle that edits it, and the
    request body the form submits. */
module CreateTrip {
  import opened Wrappers
  import opened Seqs
  import Trips

  /** No id occurs twice. */
  ghost predicate NoDup(s: seq<int>) {
    forall x :: multiset(s)[x] <= 1
  }

  /** handleDestinationToggle: a selected id is removed (every occurrence of
      it), an unselected one is appended. */
  function Toggle(selected: seq<int>, id: int): (r: seq<int>)
    ensures forall x :: x in r <==> (x in selected) != (x == id)
  {
    if id in selected then Filter(selected, (d: int) => d != id) else selected + [id]
  }

  /** An id that is not selected goes to the end; nothing else moves. */
  lemma ToggleAppends(selected: seq<int>, id: int)
    requires id !in selected
    ensures Toggle(selected, id) == selected + [id]
  {
  }

  /** A selected id disappears entirely, and the other ids keep their number
      of occurrences and their order. */
  lemma ToggleRemoves(selected: seq<int>, id: int)
    requires id in selected
    ensures id !in Toggle(selected, id)
    ensures multiset(Toggle(selected, id)) == multiset(selected)[id := 0]
    ensures SubsequenceOf(Toggle(selected, id), selected)
  {
    var r := Toggle(selected, id);
    assert forall x :: multiset(r)[x] == multiset(selected)[id := 0][x];
  }

  /** Toggling twice an id that was not selected gives back the same list. */
  lemma {:induction false} ToggleTwiceAbsent(selected: seq<int>, id: int)
    requires id !in selected
    ensures Toggle(Toggle(selected, id), id) == selected
  {
    var p := (d: int) => d != id;
    FilterConcat(selected, [id], p);
    FilterKeepsAll(selected, p);
    assert Filter([id], p) == [];
  }

  /** Toggling twice an id that was selected, on a list without duplicates,
      gives back the same ids; the id comes back at the end. */
  lemma ToggleTwicePresent(selected: seq<int>, id: int)
    requires NoDup(selected) && id in selected
    ensures multiset(Toggle(Toggle(selected, id), id)) == multiset(selected)
    ensures Toggle(Toggle(selected, id), id) == Toggle(selected, id) + [id]
  {
    ToggleRemoves(selected, id);
    var once := Toggle(selected, id);
    assert multiset(once + [id]) == multiset(once) + multiset{id};
    assert multiset(selected)[id] == 1;
  }

  /** The order is not restored: unticking and re-ticking the first of two
      selected destinations moves it to the end. */
  lemma ToggleTwiceReorders()
    ensures Toggle(Toggle([1, 2], 1), 1) == [2, 1]
  {
    var once := Toggle([1, 2], 1);
    ToggleRemoves([1, 2], 1);
    assert multiset(once) == multiset{2};
    assert |once| == 1 && once[0] in multiset(once);
    assert once == [2];
  }

  /** A selection without duplicates stays without duplicates. */
  lemma ToggleKeepsNoDup(selected: seq<int>, id: int)
    requires NoDup(selected)
    ensures NoDup(Toggle(selected, id))
  {
    var r := Toggle(selected, id);
    if id in selected {
      ToggleRemoves(selected, id);
    } else {
      assert multiset(r) == multiset(selected) + multiset{id};
      assert multiset(selected)[id] == 0;
    }
  }

  // ---------------------------------------------------------------------
  // Submitting the form

  /** The form's controlled inputs: text fields are always strings ("" when
      left blank) and the selection is the toggled list. */
  datatype Form = Form(title: string, description: string, startDate: string, endDate: string, selected: seq<int>)

  /** The body of POST /trips that handleSubmit sends. */
  function SubmitBody(f: Form): Trips.CreateRequest {
    Trips.CreateRequest(Some(f.title), Some(f.description), Some(f.startDate), Some(f.endDate), Some(f.selected))
  }

  /** A form the server accepts is stored with exactly the selected ids, in
      order, and a blank description is stored as null. */
  lemma SubmittedSelectionStored(f: Form, id: int, userId: int, now: int)
    requires Trips.CreateErrors(SubmitBody(f)) == []
    ensures Trips.NewTrip(id, userId, SubmitBody(f), now).destinations == f.selected
    ensures f.description == "" <==> Trips.NewTrip(id, userId, SubmitBody(f), now).description.None?
    ensures Trips.NewTrip(id, userId, SubmitBody(f), now).title == f.title
  {
  }

  /** For the body built from a blank title, the server's validation lists
      "Title is required" (the browser's own `required` check, which stops
      such a form before it is sent, is not part of this model). */
  lemma BlankTitleRefused(f: Form)
    requires f.title == ""
    ensures "Title is required" in Trips.CreateErrors(SubmitBody(f))
  {
  }
}
