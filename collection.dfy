/** The in-memory collection `#workouts`: an ordered sequence that grows only
    at the end and is searched by id. */
module Collection {
  import opened JsValues
  import opened Workouts

  /** The position `#workouts.find(work => work.id === id)` stops at: the first
      record carrying the id, if any. */
  function FindIndex(ws: seq<Workout>, id: string): (k: Option<nat>)
    ensures k.Some? ==> k.value < |ws| && ws[k.value].id == id
    ensures k.Some? ==> forall j :: 0 <= j < k.value ==> ws[j].id != id
    ensures k.None? ==> forall j :: 0 <= j < |ws| ==> ws[j].id != id
  {
    if ws == [] then None
    else if ws[0].id == id then Some(0)
    else match FindIndex(ws[1..], id)
      case None => None
      case Some(k) => Some(k + 1)
  }

  /** `#workouts.find(work => work.id === id)`: the first record with that id,
      or nothing (`undefined`) when no record has it. */
  function Find(ws: seq<Workout>, id: string): (r: Option<Workout>)
    ensures r.Some? <==> exists j :: 0 <= j < |ws| && ws[j].id == id
    ensures r.Some? ==> r.value.id == id && r.value in ws
    ensures r.Some? ==> exists k :: 0 <= k < |ws| && ws[k] == r.value
                                 && forall j :: 0 <= j < k ==> ws[j].id != id
  {
    match FindIndex(ws, id)
    case None => None
    case Some(k) => Some(ws[k])
  }

  /** Every record satisfies the record invariant. */
  predicate AllConsistent(ws: seq<Workout>)
  {
    forall i :: 0 <= i < |ws| ==> Consistent(ws[i])
  }

  /** Appending a record never changes what an earlier lookup found; a lookup
      that found nothing now finds the new record exactly when the ids match. */
  lemma {:induction false} FindAfterAppend(ws: seq<Workout>, w: Workout, id: string)
    ensures Find(ws + [w], id)
         == if Find(ws, id).Some? then Find(ws, id)
            else if w.id == id then Some(w)
            else None
  {
    if ws != [] && ws[0].id != id {
      FindAfterAppend(ws[1..], w, id);
      assert (ws + [w])[1..] == ws[1..] + [w];
    }
  }
}
