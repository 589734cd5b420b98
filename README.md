# Mapty workout engine in Dafny

This project models the workout-record engine of the Mapty app (`script.js`).
A user logs runs and rides at points on a map. Each record keeps the time it was
created, its place, its distance (km) and duration (min), and one derived metric:
pace in min/km for running, speed in km/h for cycling. Each record also gets an
id, a click counter and a description text. Submitting the form validates the
entered values. An accepted submission appends one record to the collection and
writes the whole collection to the `'workouts'` slot of local storage. The app
reads that slot back when it starts, and `reset` deletes it.

Layout, one module per file:

- `js_values.dfy` (`JsValues`): the JavaScript semantics the engine relies on. These are numbers that may be NaN or infinite, form text converted by unary `+`, `Number.isFinite`, `v > 0`, and the decimal text of an integer with `slice(-10)`.
- `workouts.dfy` (`Workouts`): the `Workout`/`Running`/`Cycling` classes as one datatype with a constructor per subclass. Also the derived metrics, the description, the id and `click`.
- `validation.dfy` (`Validation`): `validInputs`, `allPositive` and the per-type acceptance rules of `_newWorkout`.
- `collection.dfy` (`Collection`): lookup by id in the ordered collection.
- `storage.dfy` (`Storage`): local storage as a class holding a key-to-value map.
- `app.dfy` (`Mapty`): the `App` class with the collection, the last map click, the `editing` flag and the storage, and its methods.

The source as written does not load. `let editing = fase;` (script.js:87) raises a
ReferenceError, `if ()` (script.js:470) is a syntax error, and `_newWorkout` ends by
calling `this._editWorkout()` (script.js:326), a method that does not exist. The
model follows each function as written and takes `editing` to start as `false`.
The model follows what the code does, including these points:

- A blank cycling elevation is rejected, not kept as an absent value.
- A filled-in elevation may be zero or negative.
- A cadence may be any finite positive number, not only an integer.
- Edit, delete and sort are not implemented.
- The description contains the line break and indentation of the template literal: `"Running\n     on May 5"`.
- Records read from storage are taken as stored; nothing is recomputed.

The comment on `calcSpeed` says km/min, but the formula gives km/h; `SpeedIsPerHour` states the unit.

## Model

| member | source | states |
|---|---|---|
| `JsValues.Decimal` | script.js:5 | `Date.now() + ''` is a non-empty string of decimal digits |
| `JsValues.ToNumber` | script.js:233-234 | unary `+` on the form text: a blank field becomes 0, other text becomes the number it converts to (possibly NaN or an infinity) |
| `JsValues.IsFinite` | script.js:211 | `Number.isFinite` holds exactly for numbers that are neither NaN nor infinite; it does not coerce, so the empty string fails |
| `JsValues.IsPositive` | script.js:213 | `v > 0`: the empty string and NaN compare false, a finite number compares by its value, +Infinity compares true and -Infinity false |
| `JsValues.Suffix` | script.js:5 | `slice(-k)` keeps the last k characters: exactly k when the text is that long, the whole text when it is no longer than k, and the text is some prefix followed by the result |
| `JsValues.DecimalRoundTrip` | script.js:5 | reading the decimal text back gives the original number |
| `JsValues.SuffixValue` | script.js:5 | the last k digits of a decimal text denote its value modulo 10^k |
| `Workouts.CalcPace` | script.js:54-58 | pace times distance is the duration (min/km); positive for positive inputs |
| `Workouts.CalcSpeed` | script.js:71-75 | speed times duration equals 60 times distance; positive for positive inputs |
| `Workouts.SpeedIsPerHour` | script.js:71-75 | speed is distance per minute times 60, i.e. km/h, whatever the comment says |
| `Workouts.WorkoutId` | script.js:5 | the id is at most 10 characters, all decimal digits |
| `Workouts.IdValue` | script.js:5 | the id denotes the creation time modulo 10^10 ms and has exactly 10 digits once the time has at least 10 |
| `Workouts.IdsCollideIff` | script.js:5 | for times of 10 or more digits, two ids are equal exactly when the times agree modulo 10^10 ms |
| `Workouts.MonthNames` | script.js:15-28 | the month table has 12 entries, every month index 0..11 is in bounds, and the names are non-empty, space-free and distinct |
| `Workouts.UpperCase` | script.js:30 | `toUpperCase` on one character: a lower-case ASCII letter becomes the upper-case letter at the same place in the alphabet, anything else is unchanged |
| `Workouts.Capitalize` | script.js:30 | `type[0].toUpperCase() + type.slice(1)`: same length, first character upper-cased, every other character unchanged |
| `Workouts.Description` | script.js:30-31 | `_setDescription`: the text starts with 'R' for running and 'C' for cycling, and after its first 16 characters (the capitalised type and the template's line break and indentation) comes the month name, a space and the day |
| `Workouts.DescriptionText` | script.js:30-31 | the description is "Running" or "Cycling", a line break, five spaces, "on ", the month name, a space and the day |
| `Workouts.DescriptionDetermines` | script.js:30-31 | equal descriptions come from the same type, month and day |
| `Workouts.NewRunning` | script.js:45-52 | a new running record stores coords, distance, duration and cadence unchanged, with pace times distance equal to the duration, zero clicks, the id of the creation time, and the record invariant |
| `Workouts.NewCycling` | script.js:62-69 | a new cycling record stores coords, distance, duration and elevation unchanged, with speed times duration equal to 60 times distance, zero clicks, the id of the creation time, and the record invariant |
| `Workouts.Click` | script.js:39-41 | the click counter goes up by exactly one, every other field is unchanged, and the record invariant is kept |
| `Validation.ValidInputs` | script.js:210-211 | true exactly when every argument is a finite number; the empty string is not |
| `Validation.AllPositive` | script.js:213 | true exactly when every argument compares above zero |
| `Validation.ElevationValue` | script.js:289-290 | `value === '' ? '' : +value`: a blank elevation stays the empty string, other text becomes its unary `+` number, and the result is finite exactly when finite text was entered |
| `Validation.Validate` | script.js:232-298 | accepts exactly the acceptable forms (distance and duration finite and above zero; running: cadence too; cycling: a filled-in finite elevation) and carries the entered numbers |
| `Validation.BlankFieldsRejected` | script.js:233-299 | a blank distance, duration or cadence becomes 0 and is rejected; a blank elevation stays `''` and is rejected |
| `Validation.AnyFiniteElevationAccepted` | script.js:292-299 | with valid distance and duration, any finite elevation is accepted, zero and negative ones included |
| `Validation.NonFiniteRejected` | script.js:274-297 | text converting to NaN, +Infinity or -Infinity in the distance, the duration, or the field the selected type checks (cadence or elevation) is rejected, +Infinity included although it compares above zero |
| `Collection.FindIndex` | script.js:417-419 | the result is the first position whose record has the id, or none when no record has it |
| `Collection.Find` | script.js:417-419 | a record is found exactly when some record has the id, and it is the record at the first position carrying that id |
| `Collection.FindAfterAppend` | script.js:311 | appending keeps every earlier lookup result; an id found nowhere before now finds the new record exactly when it matches |
| `Storage.LocalStorage.SetItem` | script.js:443 | the key now holds the given sequence and every other key is unchanged |
| `Storage.LocalStorage.GetItem` | script.js:447 | the stored sequence is returned when the key is present, and nothing (`null`) when it is absent |
| `Storage.LocalStorage.RemoveItem` | script.js:459 | the key is removed and every other key is kept |
| `Mapty.Build` | script.js:280-299 | `new Running` for a running entry and `new Cycling` for a cycling one, at the clicked coords, with zero clicks, the id of the creation time, the entry's numbers and the record invariant |
| `Mapty.Submission` | script.js:268-305 | a record results exactly for acceptable forms; it satisfies the record invariant, has zero clicks, the selected type, the clicked coords, the id of the creation time and the entered numbers |
| `Mapty.App.constructor` | script.js:99-106 | the collection is the stored sequence when the slot is present and empty otherwise; `editing` starts false |
| `Mapty.App.ShowForm` | script.js:167-168 | the clicked map position is remembered and nothing else changes |
| `Mapty.App.NewWorkout` | script.js:198-323 | the result is the submission's record whatever `editing` is; a rejection changes neither the collection nor storage; an acceptance appends exactly that record and stores the whole new collection under `'workouts'`; the record invariant is kept |
| `Mapty.App.MoveToPop` | script.js:403-433 | a click outside an entry pans nowhere; otherwise the map pans to the coords of the first record with the clicked id |
| `Mapty.App.SetLocalStorage` | script.js:442-444 | the whole collection, in order, is stored under `'workouts'` |
| `Mapty.App.GetLocalStorage` | script.js:446-456 | an absent slot leaves the collection as it was; a present one replaces it |
| `Mapty.App.Reset` | script.js:458-461 | the slot is removed, other keys are kept, and the reloaded app starts with an empty collection |
| `Mapty.ReloadAfterSave` | script.js:442-452 | saving and then loading the page gives back the same collection in the same order |

## Left out

- Leaflet is left out because it is a foreign library: map creation, tile layer, markers, popups and `setView` (script.js:133-165, 330-346, 430-433). `MoveToPop` returns the coordinates the map would pan to.
- Geolocation and `alert` are left out because they are browser I/O (script.js:122-131, 246, 260, 278, 297).
- HTML building and insertion, showing and hiding the form, the elevation/cadence toggle and the `setTimeout` redisplay are left out because they are UI and timing (script.js:167-196, 348-401, 454-455).
- `_addEditWorkoutBtn` (script.js:463-486) is left out because it does not parse. The edit, sort and delete behaviour exists only in comments and TODOs. Only the `editing` flag it would set is modelled.
- JSON encoding is not modelled. The storage slot holds the record sequence directly. The model does not capture the `Date` turning into a string, class prototypes being lost on reload, or `JSON.parse` throwing on malformed text.
- Numbers are exact reals. IEEE-754 rounding and `Math.round` in the display are not modelled.
- The clock is passed in as parameters. `new Date()` and `Date.now()` are two separate readings: the date is passed as its local month index and day, and the id time as milliseconds. The conversion from milliseconds to a local calendar date is not modelled.
- A form type other than `running` or `cycling` is not modelled. The type selector offers only those two. In the source, any other value would push `undefined`.
- Workouts.Click: models `click()` as a function that returns the updated record, not an in-place update. The source never calls it (script.js:439 is commented out). Records loaded from storage are plain objects without the method.
- Workouts.CalcPace: requires a non-zero distance. JavaScript's Infinity/NaN result for a zero divisor is not modelled, and every caller passes validated positive values.
- Workouts.CalcSpeed: requires a non-zero duration, for the same reason.
- Workouts.NewRunning: requires a non-zero distance, because it computes the pace.
- Workouts.NewCycling: requires a non-zero duration, because it computes the speed.
- Workouts.UpperCase: covers ASCII letters only, not all of Unicode `toUpperCase`. The only inputs are the lower-case type names.
- Mapty.App.NewWorkout: requires a remembered map click. Without one, the source throws a TypeError reading `this.#mapEvent.latlng`, and the form is only shown after a map click. The final call to the missing `_editWorkout` (script.js:326) is also not modelled: it would throw after all state changes are done.
- Mapty.App.MoveToPop: returns nothing for an id that no record has. The source would throw a TypeError on `undefined.coords`. The list only shows ids of existing records.
- Mapty.App.constructor: does not model `_getPosition` or event-handler registration (script.js:103, 110-119).
