/** The `App` controller: creating workouts from the submitted form, looking a
    workout up when its list entry is clicked, and keeping the collection in
    the `'workouts'` slot of local storage. */
module Mapty {
  import opened JsValues
  import opened Workouts
  import opened Validation
  import opened Collection
  import opened Storage

  /** The local-storage key the whole collection is kept under. */
  const StorageKey: string := "workouts"

  /** `new Running(...)` or `new Cycling(...)` for an accepted entry. */
  function Build(e: Entry, coords: Coords, date: CalendarDate, nowMs: nat): (w: Workout)
    requires e.RunEntry? ==> e.distance != 0.0
    requires e.RideEntry? ==> e.duration != 0.0
    ensures w.Running? <==> e.RunEntry?
    ensures w.coords == coords && w.date == date && w.id == WorkoutId(nowMs) && w.clicks == 0
    ensures w.distance == e.distance && w.duration == e.duration
    ensures e.RunEntry? ==> w.cadence == e.cadence
    ensures e.RideEntry? ==> w.elevationGain == e.elevationGain
    ensures Consistent(w)
  {
    match e
    case RunEntry(distance, duration, cadence) =>
      NewRunning(coords, distance, duration, cadence, date, nowMs)
    case RideEntry(distance, duration, elevationGain) =>
      NewCycling(coords, distance, duration, elevationGain, date, nowMs)
  }

  /** The record a submission of form f appends, if any: one built at the
      clicked coordinates from the form's numbers when the form is acceptable,
      nothing otherwise. */
  function Submission(f: Form, coords: Coords, date: CalendarDate, nowMs: nat): (r: Option<Workout>)
    ensures r.Some? <==> Acceptable(f)
    ensures r.Some? ==> Consistent(r.value) && r.value.clicks == 0
    ensures r.Some? ==> r.value.Type() == f.workoutType && r.value.coords == coords
    ensures r.Some? ==> r.value.date == date && r.value.id == WorkoutId(nowMs)
    ensures r.Some? ==> r.value.distance == EnteredValue(f.distance) > 0.0
    ensures r.Some? ==> r.value.duration == EnteredValue(f.duration) > 0.0
    ensures r.Some? && r.value.Running? ==> r.value.cadence == EnteredValue(f.cadence) > 0.0
    ensures r.Some? && r.value.Cycling? ==> r.value.elevationGain == EnteredValue(f.elevation)
  {
    match Validate(f)
    case None => None
    case Some(e) => Some(Build(e, coords, date, nowMs))
  }

  /** An accepted form's submission is the record built from its entry, and
      appending it keeps a consistent collection consistent. */
  lemma AppendSubmission(ws: seq<Workout>, f: Form, coords: Coords, date: CalendarDate, nowMs: nat)
    requires Validate(f).Some?
    ensures Submission(f, coords, date, nowMs) == Some(Build(Validate(f).value, coords, date, nowMs))
    ensures AllConsistent(ws) ==> AllConsistent(ws + [Build(Validate(f).value, coords, date, nowMs)])
  {
  }

  class App {
    /** `#workouts`. */
    var workouts: seq<Workout>
    /** `#mapEvent`: where the map was last clicked. */
    var mapEvent: Option<Coords>
    /** The script-level `editing` flag. */
    var editing: bool
    /** The browser's local storage. */
    const storage: LocalStorage

    /** `new App()`: the collection starts empty and `_getLocalStorage` replaces
        it with the stored one when the slot is present. */
    constructor(storage: LocalStorage)
      ensures this.storage == storage
      ensures StorageKey in storage.items ==> workouts == storage.items[StorageKey]
      ensures StorageKey !in storage.items ==> workouts == []
      ensures mapEvent == None && !editing
    {
      this.storage := storage;
      workouts := [];
      mapEvent := None;
      editing := false;
      new;
      GetLocalStorage();
    }

    /** `_showForm(mapE)`: remembers the clicked map position. */
    method ShowForm(latlng: Coords)
      modifies this
      ensures mapEvent == Some(latlng)
      ensures workouts == old(workouts) && editing == old(editing)
    {
      mapEvent := Some(latlng);
    }

    /** `_newWorkout`: validate the form; on rejection return before anything
        changes; on acceptance append one new record and save the collection.
        The `editing` branch repeats the same checks, so the flag never
        changes the outcome. */
    method NewWorkout(f: Form, date: CalendarDate, nowMs: nat) returns (created: Option<Workout>)
      requires mapEvent.Some?
      modifies this, storage
      ensures created == Submission(f, old(mapEvent).value, date, nowMs)
      ensures created.None? ==> workouts == old(workouts) && storage.items == old(storage.items)
      ensures created.Some? ==> workouts == old(workouts) + [created.value]
      ensures created.Some? ==> storage.items == old(storage.items)[StorageKey := workouts]
      ensures AllConsistent(old(workouts)) ==> AllConsistent(workouts)
      ensures mapEvent == old(mapEvent) && editing == old(editing)
    {
      if editing {
        if Validate(f).None? {
          return None;
        }
      }
      var coords := mapEvent.value;
      var entry := Validate(f);
      if entry.None? {
        return None;
      }
      var workout := Build(entry.value, coords, date, nowMs);
      created := Some(workout);
      AppendSubmission(workouts, f, coords, date, nowMs);
      workouts := workouts + [workout];
      SetLocalStorage();
    }

    /** `_moveToPop`: for a click on a list entry with the given `data-id`,
        the coordinates the map pans to; nothing for a click outside any entry
        (or for an id no record has, where the source fails on `undefined`). */
    method MoveToPop(clicked: Option<string>) returns (view: Option<Coords>)
      ensures clicked.None? ==> view.None?
      ensures clicked.Some? ==> (view.Some? <==> Find(workouts, clicked.value).Some?)
      ensures clicked.Some? && view.Some? ==> view.value == Find(workouts, clicked.value).value.coords
    {
      if clicked.None? {
        return None;
      }
      var workout := Find(workouts, clicked.value);
      if workout.None? {
        return None;
      }
      view := Some(workout.value.coords);
    }

    /** `_setLocalStorage`: the whole collection, in order, under the key. */
    method SetLocalStorage()
      modifies storage
      ensures storage.items == old(storage.items)[StorageKey := workouts]
    {
      storage.SetItem(StorageKey, workouts);
    }

    /** `_getLocalStorage`: an absent slot leaves the collection as it is;
        a present one replaces it. */
    method GetLocalStorage()
      modifies this
      ensures StorageKey in storage.items ==> workouts == storage.items[StorageKey]
      ensures StorageKey !in storage.items ==> workouts == old(workouts)
      ensures mapEvent == old(mapEvent) && editing == old(editing)
    {
      var data := storage.GetItem(StorageKey);
      if data.None? {
        return;
      }
      workouts := data.value;
    }

    /** `reset`: removes the slot and reloads the page; the reloaded app starts
        with an empty collection. */
    method Reset() returns (reloaded: App)
      modifies storage
      ensures storage.items == old(storage.items) - {StorageKey}
      ensures fresh(reloaded) && reloaded.storage == storage && reloaded.workouts == []
    {
      storage.RemoveItem(StorageKey);
      reloaded := new App(storage);
    }
  }

  /** A save followed by a page load: the new app starts with exactly the
      saved collection, in the same order. */
  method ReloadAfterSave(app: App) returns (reloaded: App)
    modifies app.storage
    ensures fresh(reloaded) && reloaded.storage == app.storage
    ensures reloaded.workouts == app.workouts
  {
    app.SetLocalStorage();
    reloaded := new App(app.storage);
  }
}
