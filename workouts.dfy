/** The workout records: the `Workout` base class with its `Running` and
    `Cycling` subclasses, as one datatype with a constructor per subclass and
    the shared fields in both. */
module Workouts {
  import opened JsValues

  /** `date.getMonth()`: a month index, 0 for January. */
  type MonthIndex = m: nat | m < 12

  /** `date.getDate()`: a day of the month. */
  type DayOfMonth = d: nat | 1 <= d <= 31 witness 1

  /** The creation `Date`, already broken down into its local month and day. */
  datatype CalendarDate = CalendarDate(month: MonthIndex, day: DayOfMonth)

  /** `[lat, lng]` of the map click the workout was logged at. */
  datatype Coords = Coords(lat: real, lng: real)

  /** The value of the `type` field and of the form's type selector. */
  datatype WorkoutType = RunningType | CyclingType
  {
    function Name(): string
    {
      if RunningType? then "running" else "cycling"
    }
  }

  /** A workout record: distance in km, duration in minutes, pace in min/km,
      speed in km/h, elevation gain in m. */
  datatype Workout =
    | Running(date: CalendarDate, id: string, clicks: nat, coords: Coords,
              distance: real, duration: real, description: string,
              cadence: real, pace: real)
    | Cycling(date: CalendarDate, id: string, clicks: nat, coords: Coords,
              distance: real, duration: real, description: string,
              elevationGain: real, speed: real)
  {
    function Type(): WorkoutType
    {
      if Running? then RunningType else CyclingType
    }
  }

  /** The month table of `_setDescription`. */
  const Months: seq<string> :=
    ["January", "February", "March", "April", "May", "June",
     "July", "August", "September", "October", "November", "December"]

  /** What the two-line template literal of `_setDescription` puts between the
      type and the month: a line break, the five spaces that indent the second
      line, and "on ". */
  const DescriptionGap: string := "\n     on "

  /** The number of trailing digits of the creation time kept as the id. */
  const IdLength: nat := 10

  // ---------------------------------------------------------------------
  // Derived fields

  /** `calcPace`: minutes per kilometre. */
  function CalcPace(distance: real, duration: real): (pace: real)
    requires distance != 0.0
    ensures pace * distance == duration
    ensures distance > 0.0 && duration > 0.0 ==> pace > 0.0
  {
    duration / distance
  }

  /** `calcSpeed`: the distance over the duration converted to hours, that is
      kilometres per hour (the comment beside it says km/min). */
  function CalcSpeed(distance: real, duration: real): (speed: real)
    requires duration != 0.0
    ensures speed * duration == 60.0 * distance
    ensures distance > 0.0 && duration > 0.0 ==> speed > 0.0
  {
    distance / (duration / 60.0)
  }

  /** `toUpperCase` on one character; the type names are lower-case ASCII. */
  function UpperCase(c: char): (r: char)
    ensures 'a' <= c <= 'z' ==> 'A' <= r <= 'Z' && r as int - 'A' as int == c as int - 'a' as int
    ensures !('a' <= c <= 'z') ==> r == c
  {
    if 'a' <= c <= 'z' then (c as int - 32) as char else c
  }

  /** `s[0].toUpperCase() + s.slice(1)`. */
  function Capitalize(s: string): (r: string)
    requires |s| > 0
    ensures |r| == |s| && r[0] == UpperCase(s[0])
    ensures forall i :: 1 <= i < |s| ==> r[i] == s[i]
  {
    [UpperCase(s[0])] + s[1..]
  }

  /** `_setDescription`: the capitalised type, the template's line break and
      indentation, "on", the month name and the day of the month. */
  function Description(t: WorkoutType, date: CalendarDate): (r: string)
    ensures |r| > 16
    ensures r[0] == (if t == RunningType then 'R' else 'C')
    ensures r[16..] == Months[date.month] + " " + Decimal(date.day)
  {
    var head := Capitalize(t.Name()) + DescriptionGap;
    var rest := Months[date.month] + " " + Decimal(date.day);
    assert |head| == 16;
    assert (head + rest)[16..] == rest;
    head + rest
  }

  /** `(Date.now() + '').slice(-10)`. */
  function WorkoutId(nowMs: nat): (id: string)
    ensures |id| <= IdLength && AllDigits(id)
  {
    Suffix(Decimal(nowMs), IdLength)
  }

  /** What every record built by the constructors satisfies: a digit id of at
      most ten characters, the description of its type and date, and the
      derived metric agreeing with distance and duration. */
  predicate Consistent(w: Workout)
  {
    && |w.id| <= IdLength
    && AllDigits(w.id)
    && w.description == Description(w.Type(), w.date)
    && match w
       case Running(_, _, _, _, distance, duration, _, _, pace) => pace * distance == duration
       case Cycling(_, _, _, _, distance, duration, _, _, speed) => speed * duration == 60.0 * distance
  }

  // ---------------------------------------------------------------------
  // Constructors and click

  /** `new Running(coords, distance, duration, cadence)` at the given clock readings. */
  function NewRunning(coords: Coords, distance: real, duration: real, cadence: real,
                      date: CalendarDate, nowMs: nat): (w: Workout)
    requires distance != 0.0
    ensures w.Running? && w.cadence == cadence && w.pace * distance == duration
    ensures w.coords == coords && w.distance == distance && w.duration == duration
    ensures w.date == date && w.id == WorkoutId(nowMs) && w.clicks == 0
    ensures Consistent(w)
  {
    Running(date, WorkoutId(nowMs), 0, coords, distance, duration,
            Description(RunningType, date), cadence, CalcPace(distance, duration))
  }

  /** `new Cycling(coords, distance, duration, elevationGain)` at the given clock readings. */
  function NewCycling(coords: Coords, distance: real, duration: real, elevationGain: real,
                      date: CalendarDate, nowMs: nat): (w: Workout)
    requires duration != 0.0
    ensures w.Cycling? && w.elevationGain == elevationGain && w.speed * duration == 60.0 * distance
    ensures w.coords == coords && w.distance == distance && w.duration == duration
    ensures w.date == date && w.id == WorkoutId(nowMs) && w.clicks == 0
    ensures Consistent(w)
  {
    Cycling(date, WorkoutId(nowMs), 0, coords, distance, duration,
            Description(CyclingType, date), elevationGain, CalcSpeed(distance, duration))
  }

  /** `click()`: the click counter goes up by one and nothing else changes. */
  function Click(w: Workout): (r: Workout)
    ensures r.clicks == w.clicks + 1
    ensures r.(clicks := w.clicks) == w
    ensures Consistent(w) ==> Consistent(r)
  {
    w.(clicks := w.clicks + 1)
  }

  // ---------------------------------------------------------------------
  // Lemmas

  /** Speed is kilometres per minute times sixty, so kilometres per hour. */
  lemma SpeedIsPerHour(distance: real, duration: real)
    requires duration != 0.0
    ensures CalcSpeed(distance, duration) == 60.0 * (distance / duration)
  {
  }

  /** The description spelled out: "Running" or "Cycling", the gap, the month
      name, a space and the day. */
  lemma DescriptionText(t: WorkoutType, date: CalendarDate)
    ensures Description(t, date)
         == (if t == RunningType then "Running" else "Cycling")
            + "\n     on " + Months[date.month] + " " + Decimal(date.day)
  {
  }

  /** The id keeps the creation time modulo 10^10, and has all ten digits once
      the time has at least ten. */
  lemma IdValue(nowMs: nat)
    ensures ValueOf(WorkoutId(nowMs)) == nowMs % Pow10(IdLength)
    ensures nowMs >= Pow10(IdLength - 1) ==> |WorkoutId(nowMs)| == IdLength
  {
    DecimalRoundTrip(nowMs);
    SuffixValue(Decimal(nowMs), IdLength);
    if nowMs >= Pow10(IdLength - 1) {
      DecimalLongerThan(nowMs, IdLength - 1);
    }
  }

  /** For creation times of ten digits or more, two records get the same id
      exactly when their creation times agree modulo 10^10 milliseconds. */
  lemma IdsCollideIff(m: nat, n: nat)
    requires m >= Pow10(IdLength - 1) && n >= Pow10(IdLength - 1)
    ensures WorkoutId(m) == WorkoutId(n) <==> m % Pow10(IdLength) == n % Pow10(IdLength)
  {
    IdValue(m);
    IdValue(n);
    if m % Pow10(IdLength) == n % Pow10(IdLength) {
      ValueOfInjective(WorkoutId(m), WorkoutId(n));
    }
  }

  /** No month name is empty or holds a space, and no two are the same. */
  lemma MonthNames()
    ensures |Months| == 12
    ensures forall m :: 0 <= m < 12 ==> |Months[m]| > 0 && ' ' !in Months[m]
    ensures forall i, j :: 0 <= i < 12 && 0 <= j < 12 && Months[i] == Months[j] ==> i == j
  {
  }

  /** In a text without spaces followed by a space, that space is the first one. */
  lemma FirstSpace(a: string, x: string)
    requires ' ' !in a
    ensures (a + " " + x)[|a|] == ' '
    ensures forall k :: 0 <= k < |a| ==> (a + " " + x)[k] != ' '
  {
  }

  /** Two texts without spaces, each followed by a space and a rest, are equal
      when the whole strings are. */
  lemma {:induction false} SplitAtSpace(a: string, x: string, b: string, y: string)
    requires ' ' !in a && ' ' !in b
    requires a + " " + x == b + " " + y
    ensures a == b && x == y
  {
    var s := a + " " + x;
    FirstSpace(a, x);
    FirstSpace(b, y);
    assert |a| == |b|;
    assert a == s[..|a|] == b;
    assert x == s[|a| + 1..] == y;
  }

  /** The description determines the type, the month and the day it was built from. */
  lemma DescriptionDetermines(t1: WorkoutType, d1: CalendarDate, t2: WorkoutType, d2: CalendarDate)
    requires Description(t1, d1) == Description(t2, d2)
    ensures t1 == t2 && d1 == d2
  {
    MonthNames();
    SplitAtSpace(Months[d1.month], Decimal(d1.day), Months[d2.month], Decimal(d2.day));
    DecimalInjective(d1.day, d2.day);
  }
}
