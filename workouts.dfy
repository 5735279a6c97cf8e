/** The tracker's rules over logged weightlifting sets: preparing a set for
    logging (unit conversion and validation), the Epley one-rep-max estimate,
    the heaviest set of each training day, the last session's top set,
    lifetime personal records per exercise and the list of exercise names. */
module Workouts {
  import opened Wrappers
  import opened Text
  import opened Ordered

  /** A calendar date as a day number; the rules only compare dates. */
  type Date = int

  /** The store's insertion timestamp; only its order is used, as a tie-break. */
  type Timestamp = int

  /** One row of the `workouts` table as the rules read it. `reps` is a
      nullable integer column, hence optional; rpe, notes and id are carried
      by the store but read by none of the rules. */
  datatype LoggedSet = LoggedSet(
    date: Date,
    exercise: string,
    weightLb: real,
    reps: Option<int>,
    createdAt: Timestamp)

  // ------------------------------------------------------------ logging a set

  /** Pounds per kilogram. */
  const LbPerKg: real := 2.2046226218

  /** The two units the weight selector offers. */
  datatype Unit = Lb | Kg

  /** The weight entered, in pounds. A positive entry stays positive and
      never shrinks, and a kilogram entry divides back to what was entered. */
  function ToPounds(value: real, unit: Unit): (w: real)
    ensures value > 0.0 ==> w >= value
    ensures unit == Kg ==> w / LbPerKg == value
  {
    match unit
    case Lb => value
    case Kg => value * LbPerKg
  }

  lemma ToPoundsLb(value: real)
    ensures ToPounds(value, Lb) == value
  {
  }

  /** Converting kilograms multiplies by the fixed factor. */
  lemma ToPoundsKg(value: real)
    ensures ToPounds(value, Kg) == value * 2.2046226218
  {
  }

  /** The record handed to the store for insertion. */
  datatype NewSet = NewSet(
    date: Date,
    exercise: string,
    weightLb: real,
    reps: int,
    rpe: string,
    notes: string)

  /** Why a set was not logged: the single message the form shows. */
  datatype LogError = MissingExerciseOrWeight

  /** The payload `insert_set` builds: each text field is the input with its
      surrounding whitespace removed, so stripping it again changes nothing;
      date, weight and reps go through as given. */
  function Payload(date: Date, exercise: string, weightLb: real, reps: int, rpe: string, notes: string): (p: NewSet)
    ensures StrippedFrom(exercise, p.exercise) && StrippedFrom(rpe, p.rpe) && StrippedFrom(notes, p.notes)
    ensures Strip(p.exercise) == p.exercise && Strip(p.rpe) == p.rpe && Strip(p.notes) == p.notes
    ensures p.date == date && p.weightLb == weightLb && p.reps == reps
  {
    StripIdempotent(exercise);
    StripIdempotent(rpe);
    StripIdempotent(notes);
    NewSet(date, Strip(exercise), weightLb, reps, Strip(rpe), Strip(notes))
  }

  /** The "Log Set" button as written: the exercise name is tested before it
      is stripped, so a name made only of blanks passes the check. */
  function PrepareSetAsWritten(date: Date, exercise: string, weightValue: real, unit: Unit,
                               reps: int, rpe: string, notes: string): (r: Result<NewSet, LogError>)
    ensures r.Err? <==> exercise == [] || weightValue <= 0.0
    ensures r.Ok? ==> r.value.exercise == Strip(exercise) && r.value.rpe == Strip(rpe) && r.value.notes == Strip(notes)
    ensures r.Ok? ==> r.value.date == date && r.value.reps == reps
    ensures r.Ok? && unit == Lb ==> r.value.weightLb == weightValue
    ensures r.Ok? && unit == Kg ==> r.value.weightLb == weightValue * 2.2046226218
    ensures r.Ok? ==> r.value.weightLb >= weightValue > 0.0
  {
    if exercise == [] || weightValue <= 0.0 then Err(MissingExerciseOrWeight)
    else
      Ok(Payload(date, exercise, ToPounds(weightValue, unit), reps, rpe, notes))
  }

  /** With the button as written, a name made only of blanks (a single
      space, say) is accepted and stored as the empty name. */
  lemma BlankExerciseStoredEmpty(date: Date, blank: string, weightValue: real, unit: Unit,
                                 reps: int, rpe: string, notes: string)
    requires |blank| > 0 && AllSpace(blank) && weightValue > 0.0
    ensures PrepareSetAsWritten(date, blank, weightValue, unit, reps, rpe, notes).Ok?
    ensures PrepareSetAsWritten(date, blank, weightValue, unit, reps, rpe, notes).value.exercise == []
  {
    StripEmptyIff(blank);
  }

  /** The "Log Set" button with the evidently intended check: the name must
      be non-empty once stripped. Whatever it accepts is exactly what the
      button as written stores, and what that rejects it rejects too. */
  function PrepareSet(date: Date, exercise: string, weightValue: real, unit: Unit,
                      reps: int, rpe: string, notes: string): (r: Result<NewSet, LogError>)
    ensures r.Err? <==> Strip(exercise) == [] || weightValue <= 0.0
    ensures r.Ok? ==> r == PrepareSetAsWritten(date, exercise, weightValue, unit, reps, rpe, notes)
    ensures r.Ok? ==> |r.value.exercise| > 0 && Strip(r.value.exercise) == r.value.exercise
    ensures r.Ok? ==> r.value.weightLb > 0.0 && r.value.reps == reps
    ensures PrepareSetAsWritten(date, exercise, weightValue, unit, reps, rpe, notes).Err? ==> r.Err?
  {
    StripIdempotent(exercise);
    if Strip(exercise) == [] || weightValue <= 0.0 then Err(MissingExerciseOrWeight)
    else
      Ok(Payload(date, exercise, ToPounds(weightValue, unit), reps, rpe, notes))
  }

  // ------------------------------------------------------------- Epley e1RM

  /** Python's `reps or 0`: a missing count counts as zero (a zero count is
      zero anyway). */
  function RepsOrZero(reps: Option<int>): int {
    reps.GetOr(0)
  }

  /** The Epley estimate of a one-rep maximum: with no reps it is the weight
      itself, and a non-negative count never estimates below the weight. */
  function Epley(weightLb: real, reps: Option<int>): (e: real)
    ensures reps == None || reps == Some(0) ==> e == weightLb
    ensures weightLb >= 0.0 && RepsOrZero(reps) >= 0 ==> e >= weightLb
  {
    var bonus := (RepsOrZero(reps) as real) / 30.0;
    assert weightLb * (1.0 + bonus) == weightLb + weightLb * bonus;
    assert weightLb >= 0.0 && bonus >= 0.0 ==> weightLb * bonus >= 0.0;
    weightLb * (1.0 + bonus)
  }

  lemma EpleyFormula(weightLb: real, reps: int)
    ensures 30.0 * Epley(weightLb, Some(reps)) == weightLb * ((30 + reps) as real)
  {
  }

  /** For a positive weight, more reps give a strictly higher estimate. */
  lemma EpleyIncreasing(weightLb: real, fewer: int, more: int)
    requires weightLb > 0.0 && fewer < more
    ensures Epley(weightLb, Some(fewer)) < Epley(weightLb, Some(more))
  {
    var step := ((more - fewer) as real) / 30.0;
    assert step > 0.0;
    assert Epley(weightLb, Some(more)) - Epley(weightLb, Some(fewer)) == weightLb * step;
    assert weightLb * step > 0.0;
  }

  /** The estimate a logged set contributes to the records table: a missing
      reps value is read as 1, so such a set estimates 31/30 of its weight. */
  function SetE1rm(x: LoggedSet): (e: real)
    ensures x.reps.Some? ==> e == Epley(x.weightLb, x.reps)
    ensures x.reps.None? ==> 30.0 * e == 31.0 * x.weightLb
  {
    Epley(x.weightLb, Some(x.reps.GetOr(1)))
  }

  // ------------------------------------------------------- top set per day

  /** A day and the heaviest weight lifted on it. */
  datatype DayTop = DayTop(date: Date, topWeightLb: real)

  /** The date column. */
  function Dates(s: seq<LoggedSet>): seq<Date> {
    seq(|s|, k requires 0 <= k < |s| => s[k].date)
  }

  /** The weight column. */
  function Weights(s: seq<LoggedSet>): seq<real> {
    seq(|s|, k requires 0 <= k < |s| => s[k].weightLb)
  }

  /** The distinct dates present. */
  ghost function DateSet(s: seq<LoggedSet>): set<Date> {
    set x | x in s :: x.date
  }

  /** The sets logged on day `d`, in their original order. */
  function OnDate(s: seq<LoggedSet>, d: Date): (r: seq<LoggedSet>)
    ensures forall x :: x in r <==> x in s && x.date == d
  {
    if |s| == 0 then []
    else
      var x := s[|s| - 1];
      assert s == s[..|s| - 1] + [x];
      OnDate(s[..|s| - 1], d) + (if x.date == d then [x] else [])
  }

  /** `w` is the heaviest weight among the sets of day `d`. */
  ghost predicate IsTopWeightOn(s: seq<LoggedSet>, d: Date, w: real) {
    && (exists x :: x in s && x.date == d && x.weightLb == w)
    && (forall x :: x in s && x.date == d ==> x.weightLb <= w)
  }

  /** The heaviest weight logged on a day that has sets. */
  function TopWeightOn(s: seq<LoggedSet>, d: Date): (w: real)
    requires d in DateSet(s)
    ensures IsTopWeightOn(s, d, w)
  {
    var day := OnDate(s, d);
    var x :| x in s && x.date == d;
    assert x in day;
    var ws := Weights(day);
    var w := MaxOf(ws);
    assert forall y :: y in day ==> y.weightLb <= w by {
      forall y | y in day ensures y.weightLb <= w {
        var k :| 0 <= k < |day| && day[k] == y;
        assert ws[k] == y.weightLb;
      }
    }
    var k :| 0 <= k < |ws| && ws[k] == w;
    assert day[k] in day;
    w
  }

  /** Strictly ascending by date, so one entry per date. */
  predicate DaysAscending(tops: seq<DayTop>) {
    forall i, j :: 0 <= i < j < |tops| ==> tops[i].date < tops[j].date
  }

  /** The dates a series of day tops covers. */
  ghost function TopDates(tops: seq<DayTop>): set<Date> {
    set t | t in tops :: t.date
  }

  lemma DatesCover(s: seq<LoggedSet>, ds: seq<Date>)
    requires forall y :: y in ds <==> y in Dates(s)
    ensures Elements(ds) == DateSet(s)
  {
    forall d | d in ds ensures d in DateSet(s) {
      var k :| 0 <= k < |s| && Dates(s)[k] == d;
      assert s[k] in s;
    }
    forall d | d in DateSet(s) ensures d in ds {
      var x :| x in s && x.date == d;
      var k :| 0 <= k < |s| && s[k] == x;
      assert Dates(s)[k] == d;
    }
  }

  /** `compute_topsets_by_day`: group by date, keep each date's heaviest
      weight, ascending by date. Empty input gives the empty series. */
  function TopSetsByDay(s: seq<LoggedSet>): (r: seq<DayTop>)
    ensures DaysAscending(r)
    ensures TopDates(r) == DateSet(s)
    ensures |r| == |DateSet(s)|
    ensures forall t :: t in r ==> IsTopWeightOn(s, t.date, t.topWeightLb)
    ensures |r| == 0 <==> |s| == 0
  {
    var ds := SortedDistinctInts(Dates(s));
    DatesCover(s, ds);
    var r := seq(|ds|, i requires 0 <= i < |ds| => DayTop(ds[i], TopWeightOn(s, ds[i])));
    assert TopDates(r) == Elements(ds) by {
      forall d | d in Elements(ds) ensures d in TopDates(r) {
        var i :| 0 <= i < |ds| && ds[i] == d;
        assert r[i] in r;
      }
    }
    DistinctCard(ds);
    assert |s| > 0 ==> s[0].date in DateSet(s);
    r
  }

  // ------------------------------------------------------- last top set

  /** The top set of the last session, as the quick-log offers it again. */
  datatype TopSet = TopSet(date: Date, weightLb: real, reps: Option<int>)

  /** `a` is not after `b` when sets are ordered by date, then weight, then
      creation time. */
  predicate NoLaterThan(a: LoggedSet, b: LoggedSet) {
    || a.date < b.date
    || (a.date == b.date && a.weightLb < b.weightLb)
    || (a.date == b.date && a.weightLb == b.weightLb && a.createdAt <= b.createdAt)
  }

  /** The position of the last set under that order; of identical keys the
      later position is taken. */
  function LastTopIndex(s: seq<LoggedSet>): (k: nat)
    requires |s| > 0
    ensures k < |s|
    ensures forall j :: 0 <= j < |s| ==> NoLaterThan(s[j], s[k])
    ensures forall j :: k < j < |s| ==> !NoLaterThan(s[k], s[j])
  {
    if |s| == 1 then 0
    else
      var k := LastTopIndex(s[..|s| - 1]);
      assert forall j :: 0 <= j < |s| - 1 ==> s[..|s| - 1][j] == s[j];
      if NoLaterThan(s[k], s[|s| - 1]) then |s| - 1 else k
  }

  /** `get_last_topset`: none for no sets; otherwise the latest date, the
      heaviest weight on that date and, among the sets of that weight, the
      reps of the one created last. */
  function LastTopSet(s: seq<LoggedSet>): (r: Option<TopSet>)
    ensures r.None? <==> |s| == 0
    ensures r.Some? ==> forall x :: x in s ==> x.date <= r.value.date
    ensures r.Some? ==> IsTopWeightOn(s, r.value.date, r.value.weightLb)
    ensures r.Some? ==> exists x :: x in s && x.date == r.value.date && x.weightLb == r.value.weightLb
                          && x.reps == r.value.reps
                          && forall y :: y in s && y.date == x.date && y.weightLb == x.weightLb ==> y.createdAt <= x.createdAt
  {
    if |s| == 0 then None
    else
      var k := LastTopIndex(s);
      assert s[k] in s;
      assert forall x :: x in s ==> NoLaterThan(x, s[k]);
      Some(TopSet(s[k].date, s[k].weightLb, s[k].reps))
  }

  /** A day has one top weight. */
  lemma TopWeightUnique(s: seq<LoggedSet>, d: Date, w1: real, w2: real)
    requires IsTopWeightOn(s, d, w1) && IsTopWeightOn(s, d, w2)
    ensures w1 == w2
  {
    var x1 :| x1 in s && x1.date == d && x1.weightLb == w1;
    var x2 :| x2 in s && x2.date == d && x2.weightLb == w2;
  }

  /** The last day of the top-set series is the latest date of any set. */
  lemma LastDayIsLatest(s: seq<LoggedSet>)
    requires |s| > 0
    ensures var tops := TopSetsByDay(s);
            && |tops| > 0
            && tops[|tops| - 1].date in DateSet(s)
            && forall d :: d in DateSet(s) ==> d <= tops[|tops| - 1].date
  {
    var tops := TopSetsByDay(s);
    var n := |tops| - 1;
    assert tops[n] in tops;
    forall d | d in DateSet(s) ensures d <= tops[n].date {
      assert d in TopDates(tops);
      var t :| t in tops && t.date == d;
      var i :| 0 <= i < |tops| && tops[i] == t;
      assert i == n || tops[i].date < tops[n].date;
    }
  }

  /** The last top set lies on the last day of the top-set series and carries
      that day's top weight. */
  lemma LastTopSetIsLastDay(s: seq<LoggedSet>)
    requires |s| > 0
    ensures var tops := TopSetsByDay(s);
            && |tops| > 0
            && LastTopSet(s).value.date == tops[|tops| - 1].date
            && LastTopSet(s).value.weightLb == tops[|tops| - 1].topWeightLb
  {
    LastDayIsLatest(s);
    var tops := TopSetsByDay(s);
    var last := tops[|tops| - 1];
    var top := LastTopSet(s).value;
    assert IsTopWeightOn(s, top.date, top.weightLb);
    assert top.date in DateSet(s) by {
      var x :| x in s && x.date == top.date && x.weightLb == top.weightLb;
    }
    assert last.date <= top.date by {
      var x :| x in s && x.date == last.date;
    }
    assert last in tops;
    TopWeightUnique(s, last.date, last.topWeightLb, top.weightLb);
  }

  // ------------------------------------------------------- personal records

  /** One row of the lifetime records table. */
  datatype PersonalRecord = PersonalRecord(exercise: string, bestWeightLb: real, bestE1rm: real)

  /** The exercise column. */
  function Exercises(s: seq<LoggedSet>): seq<string> {
    seq(|s|, k requires 0 <= k < |s| => s[k].exercise)
  }

  /** The e1RM column the records table adds. */
  function E1rms(s: seq<LoggedSet>): seq<real> {
    seq(|s|, k requires 0 <= k < |s| => SetE1rm(s[k]))
  }

  /** The distinct exercises present. */
  ghost function ExerciseSet(s: seq<LoggedSet>): set<string> {
    set x | x in s :: x.exercise
  }

  /** The sets of exercise `e`, in their original order. */
  function OfExercise(s: seq<LoggedSet>, e: string): (r: seq<LoggedSet>)
    ensures forall x :: x in r <==> x in s && x.exercise == e
  {
    if |s| == 0 then []
    else
      var x := s[|s| - 1];
      assert s == s[..|s| - 1] + [x];
      OfExercise(s[..|s| - 1], e) + (if x.exercise == e then [x] else [])
  }

  /** `w` is the heaviest weight ever logged for exercise `e`. */
  ghost predicate IsBestWeight(s: seq<LoggedSet>, e: string, w: real) {
    && (exists x :: x in s && x.exercise == e && x.weightLb == w)
    && (forall x :: x in s && x.exercise == e ==> x.weightLb <= w)
  }

  /** `m` is the highest e1RM of any set logged for exercise `e`. */
  ghost predicate IsBestE1rm(s: seq<LoggedSet>, e: string, m: real) {
    && (exists x :: x in s && x.exercise == e && SetE1rm(x) == m)
    && (forall x :: x in s && x.exercise == e ==> SetE1rm(x) <= m)
  }

  function BestWeight(s: seq<LoggedSet>, e: string): (w: real)
    requires e in ExerciseSet(s)
    ensures IsBestWeight(s, e, w)
  {
    var sets := OfExercise(s, e);
    var x :| x in s && x.exercise == e;
    assert x in sets;
    var ws := Weights(sets);
    var w := MaxOf(ws);
    assert forall y :: y in sets ==> y.weightLb <= w by {
      forall y | y in sets ensures y.weightLb <= w {
        var k :| 0 <= k < |sets| && sets[k] == y;
        assert ws[k] == y.weightLb;
      }
    }
    var k :| 0 <= k < |ws| && ws[k] == w;
    assert sets[k] in sets;
    w
  }

  function BestE1rm(s: seq<LoggedSet>, e: string): (m: real)
    requires e in ExerciseSet(s)
    ensures IsBestE1rm(s, e, m)
  {
    var sets := OfExercise(s, e);
    var x :| x in s && x.exercise == e;
    assert x in sets;
    var ms := E1rms(sets);
    var m := MaxOf(ms);
    assert forall y :: y in sets ==> SetE1rm(y) <= m by {
      forall y | y in sets ensures SetE1rm(y) <= m {
        var k :| 0 <= k < |sets| && sets[k] == y;
        assert ms[k] == SetE1rm(y);
      }
    }
    var k :| 0 <= k < |ms| && ms[k] == m;
    assert sets[k] in sets;
    m
  }

  /** Strictly ascending by exercise name, so one row per exercise. */
  predicate RecordsAscending(r: seq<PersonalRecord>) {
    forall i, j :: 0 <= i < j < |r| ==> LexLess(r[i].exercise, r[j].exercise)
  }

  ghost function RecordExercises(r: seq<PersonalRecord>): set<string> {
    set p | p in r :: p.exercise
  }

  lemma ExercisesCover(s: seq<LoggedSet>, es: seq<string>)
    requires forall y :: y in es <==> y in Exercises(s)
    ensures Elements(es) == ExerciseSet(s)
  {
    forall e | e in es ensures e in ExerciseSet(s) {
      var k :| 0 <= k < |s| && Exercises(s)[k] == e;
      assert s[k] in s;
    }
    forall e | e in ExerciseSet(s) ensures e in es {
      var x :| x in s && x.exercise == e;
      var k :| 0 <= k < |s| && s[k] == x;
      assert Exercises(s)[k] == e;
    }
  }

  /** The "Lifetime PRs" table: one row per exercise present, sorted by name,
      holding that exercise's heaviest weight and, independently, its highest
      e1RM. */
  function PersonalRecords(s: seq<LoggedSet>): (r: seq<PersonalRecord>)
    ensures RecordsAscending(r)
    ensures RecordExercises(r) == ExerciseSet(s)
    ensures |r| == |ExerciseSet(s)|
    ensures forall p :: p in r ==> IsBestWeight(s, p.exercise, p.bestWeightLb)
    ensures forall p :: p in r ==> IsBestE1rm(s, p.exercise, p.bestE1rm)
  {
    var es := SortedDistinctStrs(Exercises(s));
    ExercisesCover(s, es);
    var r := seq(|es|, i requires 0 <= i < |es| => PersonalRecord(es[i], BestWeight(s, es[i]), BestE1rm(s, es[i])));
    assert RecordExercises(r) == Elements(es) by {
      forall e | e in Elements(es) ensures e in RecordExercises(r) {
        var i :| 0 <= i < |es| && es[i] == e;
        assert r[i] in r;
      }
    }
    StrsAscendingDistinct(es);
    DistinctCard(es);
    r
  }

  /** The row of exercise `e` in the records table. */
  lemma RecordFor(s: seq<LoggedSet>, e: string) returns (p: PersonalRecord)
    requires e in ExerciseSet(s)
    ensures p in PersonalRecords(s) && p.exercise == e
  {
    var r := PersonalRecords(s);
    assert e in RecordExercises(r);
    p :| p in r && p.exercise == e;
  }

  /** Squat 200 lb x 5, Squat 225 lb x 1 and Bench 135 lb x 8, on any days. */
  function ExampleSets(d1: Date, d2: Date, d3: Date, t1: Timestamp, t2: Timestamp, t3: Timestamp): seq<LoggedSet> {
    [LoggedSet(d1, "Squat", 200.0, Some(5), t1),
     LoggedSet(d2, "Squat", 225.0, Some(1), t2),
     LoggedSet(d3, "Bench", 135.0, Some(8), t3)]
  }

  /** The example names two exercises, so the table has two rows. */
  lemma ExampleRowCount(d1: Date, d2: Date, d3: Date, t1: Timestamp, t2: Timestamp, t3: Timestamp)
    ensures |PersonalRecords(ExampleSets(d1, d2, d3, t1, t2, t3))| == 2
  {
    var s := ExampleSets(d1, d2, d3, t1, t2, t3);
    assert s[0] in s && s[2] in s;
    assert forall x :: x in s ==> x == s[0] || x == s[1] || x == s[2];
    assert "Squat"[0] != "Bench"[0];
    assert ExerciseSet(s) == {"Squat", "Bench"};
    PairCard("Squat", "Bench");
  }

  /** The Squat row's best weight comes from the single, while its best e1RM
      (700/3, about 233.33 lb) comes from the set of five. */
  lemma ExampleSquatRow(d1: Date, d2: Date, d3: Date, t1: Timestamp, t2: Timestamp, t3: Timestamp)
    ensures PersonalRecord("Squat", 225.0, 700.0 / 3.0) in PersonalRecords(ExampleSets(d1, d2, d3, t1, t2, t3))
  {
    var s := ExampleSets(d1, d2, d3, t1, t2, t3);
    assert s[0] in s && s[1] in s;
    assert forall x :: x in s && x.exercise == "Squat" ==> x == s[0] || x == s[1] by {
      assert "Squat"[0] != "Bench"[0];
    }
    assert SetE1rm(s[0]) == 700.0 / 3.0;
    assert SetE1rm(s[1]) == 232.5;
    var squat := RecordFor(s, "Squat");
    assert squat.bestWeightLb == 225.0;
    assert squat.bestE1rm == 700.0 / 3.0;
  }

  lemma ExampleBenchRow(d1: Date, d2: Date, d3: Date, t1: Timestamp, t2: Timestamp, t3: Timestamp)
    ensures PersonalRecord("Bench", 135.0, 171.0) in PersonalRecords(ExampleSets(d1, d2, d3, t1, t2, t3))
  {
    var s := ExampleSets(d1, d2, d3, t1, t2, t3);
    assert s[2] in s;
    assert forall x :: x in s && x.exercise == "Bench" ==> x == s[2] by {
      assert "Squat"[0] != "Bench"[0];
    }
    assert SetE1rm(s[2]) == 171.0;
    var bench := RecordFor(s, "Bench");
    assert bench.bestWeightLb == 135.0;
    assert bench.bestE1rm == 171.0;
  }

  /** Two different names make a set of two. */
  lemma PairCard(a: string, b: string)
    requires a != b
    ensures |{a, b}| == 2
  {
  }

  // ------------------------------------------------------- exercise names

  /** `dropna()`: the entries of a column that are not missing. */
  function Present(col: seq<Option<string>>): (vs: seq<string>)
    ensures forall v :: v in vs <==> Some(v) in col
  {
    if |col| == 0 then []
    else
      assert col == col[..|col| - 1] + [col[|col| - 1]];
      Present(col[..|col| - 1]) + (match col[|col| - 1] case None => [] case Some(v) => [v])
  }

  /** `.str.strip()` applied to every name. */
  function StripAll(vs: seq<string>): seq<string> {
    seq(|vs|, i requires 0 <= i < |vs| => Strip(vs[i]))
  }

  lemma StripAllMembers(vs: seq<string>)
    ensures forall e :: e in StripAll(vs) <==> exists v :: v in vs && e == Strip(v)
    ensures forall e :: e in StripAll(vs) ==> Strip(e) == e
  {
    var names := StripAll(vs);
    forall e | e in names ensures (exists v :: v in vs && e == Strip(v)) && Strip(e) == e {
      var i :| 0 <= i < |names| && names[i] == e;
      assert vs[i] in vs;
      StripIdempotent(vs[i]);
    }
    forall e | exists v :: v in vs && e == Strip(v) ensures e in names {
      var v :| v in vs && e == Strip(v);
      var i :| 0 <= i < |vs| && vs[i] == v;
      assert names[i] == e;
    }
  }

  /** `fetch_exercises` on the column it reads: missing entries dropped, names
      stripped, duplicates dropped, sorted. */
  function ExerciseNames(col: seq<Option<string>>): (r: seq<string>)
    ensures StrsAscending(r)
    ensures forall e :: e in r <==> exists v :: Some(v) in col && e == Strip(v)
    ensures forall e :: e in r ==> Strip(e) == e
  {
    var vs := Present(col);
    StripAllMembers(vs);
    SortedDistinctStrs(StripAll(vs))
  }

  /** A list of names as a column with no missing entries. */
  function AsColumn(names: seq<string>): seq<Option<string>> {
    seq(|names|, i requires 0 <= i < |names| => Some(names[i]))
  }

  lemma {:induction false} PresentOfColumn(names: seq<string>)
    ensures Present(AsColumn(names)) == names
  {
    if |names| > 0 {
      var n := |names|;
      assert AsColumn(names)[..n - 1] == AsColumn(names[..n - 1]);
      PresentOfColumn(names[..n - 1]);
      assert names == names[..n - 1] + [names[n - 1]];
    }
  }

  /** Normalising an already normalised list changes nothing. */
  lemma ExerciseNamesIdempotent(col: seq<Option<string>>)
    ensures ExerciseNames(AsColumn(ExerciseNames(col))) == ExerciseNames(col)
  {
    var r := ExerciseNames(col);
    PresentOfColumn(r);
    assert StripAll(r) == r;
    assert ExerciseNames(AsColumn(r)) == SortedDistinctStrs(r);
    StrsAscendingUnique(SortedDistinctStrs(r), r);
  }
}
