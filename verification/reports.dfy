/** The four statistics reporters: time_stats, station_stats,
    trip_duration_stats and user_stats, each returning what it prints. */
module Reports {
  import opened Common
  import opened Vocabulary
  import opened Trips
  import opened Stats

  function MonthColumn(rows: seq<Trip>): seq<Month>
  {
    seq(|rows|, i requires 0 <= i < |rows| => rows[i].month)
  }

  function WeekdayColumn(rows: seq<Trip>): seq<Weekday>
  {
    seq(|rows|, i requires 0 <= i < |rows| => rows[i].weekday)
  }

  function HourColumn(rows: seq<Trip>): seq<Hour>
  {
    seq(|rows|, i requires 0 <= i < |rows| => rows[i].hour)
  }

  function StartColumn(rows: seq<Trip>): seq<string>
  {
    seq(|rows|, i requires 0 <= i < |rows| => rows[i].startStation)
  }

  function EndColumn(rows: seq<Trip>): seq<string>
  {
    seq(|rows|, i requires 0 <= i < |rows| => rows[i].endStation)
  }

  /** The (Start Station, End Station) key of each row, as groupby sees it. */
  function TripColumn(rows: seq<Trip>): seq<(string, string)>
  {
    seq(|rows|, i requires 0 <= i < |rows| => (rows[i].startStation, rows[i].endStation))
  }

  function UserTypeColumn(rows: seq<Trip>): seq<string>
  {
    seq(|rows|, i requires 0 <= i < |rows| => rows[i].userType)
  }

  function GenderColumn(rows: seq<Trip>): seq<Option<string>>
  {
    seq(|rows|, i requires 0 <= i < |rows| => rows[i].gender)
  }

  function BirthYearColumn(rows: seq<Trip>): seq<Option<int>>
  {
    seq(|rows|, i requires 0 <= i < |rows| => rows[i].birthYear)
  }

  /** 'travel time': end minus start of each row, in seconds. */
  function DurationColumn(rows: seq<Trip>): (r: seq<int>)
    ensures |r| == |rows|
    ensures forall i :: 0 <= i < |rows| && rows[i].startTime <= rows[i].endTime ==> r[i] >= 0
  {
    seq(|rows|, i requires 0 <= i < |rows| => rows[i].endTime - rows[i].startTime)
  }

  /** What time_stats prints: the most common month, the label of the most
      common weekday and the most common start hour. */
  datatype TimeReport = TimeReport(month: Month, weekday: Weekday, dayLabel: string, hour: Hour)

  function TimeStats(rows: seq<Trip>): (r: Result<TimeReport, Abort>)
    ensures r.Err? <==> rows == []
    ensures r.Err? ==> r.error == EmptyColumn("Travel Time")
    ensures r.Ok? ==> r.value.month in MonthColumn(rows)
    ensures r.Ok? ==> forall m :: Count(MonthColumn(rows), m) <= Count(MonthColumn(rows), r.value.month)
    ensures r.Ok? ==> r.value.weekday in WeekdayColumn(rows)
    ensures r.Ok? ==> forall d :: Count(WeekdayColumn(rows), d) <= Count(WeekdayColumn(rows), r.value.weekday)
    ensures r.Ok? ==> r.value.dayLabel == DayLabels[r.value.weekday]
    ensures r.Ok? ==> r.value.hour in HourColumn(rows)
    ensures r.Ok? ==> forall h :: Count(HourColumn(rows), h) <= Count(HourColumn(rows), r.value.hour)
  {
    match (Mode(MonthColumn(rows)), Mode(WeekdayColumn(rows)), Mode(HourColumn(rows)))
    case (Some(m), Some(d), Some(h)) => Ok(TimeReport(m, d, DayLabels[d], h))
    case _ => Err(EmptyColumn("Travel Time"))
  }

  /** The printed day label of weekday 3 carries the list's leading space. */
  lemma ThursdayLabel(rows: seq<Trip>)
    requires TimeStats(rows).Ok? && TimeStats(rows).value.weekday == 3
    ensures TimeStats(rows).value.dayLabel == " Thursday"
  {
  }

  /** What station_stats prints: the most common start and end stations and
      the top (start, end) group with its size. */
  datatype StationReport = StationReport(start: string, end: string, trip: (string, string), tripCount: nat)

  function StationStats(rows: seq<Trip>): (r: Result<StationReport, Abort>)
    ensures r.Err? <==> rows == []
    ensures r.Err? ==> r.error == EmptyColumn("Start Station")
    ensures r.Ok? ==> r.value.start in StartColumn(rows)
    ensures r.Ok? ==> forall s :: Count(StartColumn(rows), s) <= Count(StartColumn(rows), r.value.start)
    ensures r.Ok? ==> r.value.end in EndColumn(rows)
    ensures r.Ok? ==> forall s :: Count(EndColumn(rows), s) <= Count(EndColumn(rows), r.value.end)
    ensures r.Ok? ==> r.value.trip in TripColumn(rows)
    ensures r.Ok? ==> r.value.tripCount == Count(TripColumn(rows), r.value.trip)
    ensures r.Ok? ==> forall p :: Count(TripColumn(rows), p) <= r.value.tripCount
  {
    match (Mode(StartColumn(rows)), Mode(EndColumn(rows)), Mode(TripColumn(rows)))
    case (Some(s), Some(e), Some(p)) => Ok(StationReport(s, e, p, Count(TripColumn(rows), p)))
    case _ => Err(EmptyColumn("Start Station"))
  }

  /** The reported group size is the number of rows of that (start, end) trip. */
  lemma {:induction false} TripCountIsGroupSize(rows: seq<Trip>)
    requires StationStats(rows).Ok?
    ensures StationStats(rows).value.tripCount ==
      |TripGroup(rows, StationStats(rows).value.trip)|
  {
    GroupSize(rows, StationStats(rows).value.trip);
  }

  /** The rows of one (start, end) group, in order. */
  function TripGroup(rows: seq<Trip>, p: (string, string)): (g: seq<Trip>)
    ensures forall t :: t in g ==> t in rows && (t.startStation, t.endStation) == p
  {
    if rows == [] then []
    else (if (rows[0].startStation, rows[0].endStation) == p then [rows[0]] else []) + TripGroup(rows[1..], p)
  }

  lemma {:induction false} GroupSize(rows: seq<Trip>, p: (string, string))
    ensures |TripGroup(rows, p)| == Count(TripColumn(rows), p)
  {
    if rows != [] {
      GroupSize(rows[1..], p);
      assert TripColumn(rows) == [TripColumn(rows)[0]] + TripColumn(rows[1..]);
    }
  }

  /** What trip_duration_stats prints: the total and the mean duration
      (None is NaT, the mean of no rows). */
  datatype DurationReport = DurationReport(total: int, mean: Option<real>)

  function DurationStats(rows: seq<Trip>): (r: DurationReport)
    ensures r.mean.None? <==> rows == []
    ensures r.mean.Some? ==> r.mean.value * |rows| as real == r.total as real
  {
    DurationReport(Sum(DurationColumn(rows)), Mean(DurationColumn(rows)))
  }

  /** Total travel time is additive over rows: the total of a frame split in two
      is the sum of the two totals, and one row contributes end minus start. */
  lemma {:induction false} TotalAdditive(a: seq<Trip>, b: seq<Trip>)
    ensures DurationStats(a + b).total == DurationStats(a).total + DurationStats(b).total
  {
    assert DurationColumn(a + b) == DurationColumn(a) + DurationColumn(b);
    SumAppend(DurationColumn(a), DurationColumn(b));
  }

  lemma TotalOfOne(t: Trip)
    ensures DurationStats([t]).total == t.endTime - t.startTime
  {
    var c := DurationColumn([t]);
    assert c == [t.endTime - t.startTime];
    assert c[1..] == [];
    assert Sum(c) == c[0] + Sum(c[1..]);
  }

  /** The mean lies between the shortest and the longest trip. */
  lemma MeanBetweenTrips(rows: seq<Trip>)
    requires rows != []
    ensures Min(DurationColumn(rows)) as real <= DurationStats(rows).mean.value
    ensures DurationStats(rows).mean.value <= Max(DurationColumn(rows)) as real
  {
    MeanBounds(DurationColumn(rows));
  }

  datatype GenderSection = NoGenderColumn | GenderCounts(counts: seq<(string, nat)>)

  datatype BirthSection = NoBirthYearColumn | BirthYears(earliest: int, latest: int, common: int)

  /** What user_stats prints: user-type counts, then either the absence
      message or the gender counts, then either the absence message or
      earliest, most recent and most common birth year. */
  datatype UserReport = UserReport(userTypes: seq<(string, nat)>, gender: GenderSection, birth: BirthSection)

  function UserStats(t: Table): (r: Result<UserReport, Abort>)
    ensures r.Err? <==> t.hasBirthYear && Present(BirthYearColumn(t.rows)) == []
    ensures r.Err? ==> r.error == EmptyColumn("Birth Year")
    ensures r.Ok? ==> r.value.userTypes == ValueCounts(UserTypeColumn(t.rows))
    ensures r.Ok? ==> (r.value.gender.NoGenderColumn? <==> !t.hasGender)
    ensures r.Ok? && t.hasGender ==> r.value.gender.counts == ValueCounts(Present(GenderColumn(t.rows)))
    ensures r.Ok? ==> (r.value.birth.NoBirthYearColumn? <==> !t.hasBirthYear)
    ensures r.Ok? && t.hasBirthYear ==> r.value.birth.earliest <= r.value.birth.latest
    ensures r.Ok? && t.hasBirthYear ==> forall y :: Some(y) in BirthYearColumn(t.rows) ==>
      r.value.birth.earliest <= y <= r.value.birth.latest
    ensures r.Ok? && t.hasBirthYear ==> Some(r.value.birth.earliest) in BirthYearColumn(t.rows)
    ensures r.Ok? && t.hasBirthYear ==> Some(r.value.birth.latest) in BirthYearColumn(t.rows)
    ensures r.Ok? && t.hasBirthYear ==> Some(r.value.birth.common) in BirthYearColumn(t.rows)
    ensures r.Ok? && t.hasBirthYear ==> forall y ::
      Count(Present(BirthYearColumn(t.rows)), y) <= Count(Present(BirthYearColumn(t.rows)), r.value.birth.common)
  {
    var userTypes := ValueCounts(UserTypeColumn(t.rows));
    var gender := if t.hasGender then GenderCounts(ValueCounts(Present(GenderColumn(t.rows)))) else NoGenderColumn;
    if !t.hasBirthYear then Ok(UserReport(userTypes, gender, NoBirthYearColumn))
    else
      var years := Present(BirthYearColumn(t.rows));
      match Mode(years)
      case None => Err(EmptyColumn("Birth Year"))
      case Some(common) => Ok(UserReport(userTypes, gender, BirthYears(Min(years), Max(years), common)))
  }

  /** Each gender count is the number of rows holding that gender; empty
      cells are counted under no gender. */
  lemma GenderCountsCountRows(t: Table, i: int)
    requires UserStats(t).Ok? && t.hasGender
    requires 0 <= i < |UserStats(t).value.gender.counts|
    ensures var e := UserStats(t).value.gender.counts[i];
      e.1 == Count(GenderColumn(t.rows), Some(e.0))
  {
    var present := Present(GenderColumn(t.rows));
    ValueCountsCounts(present, i);
    PresentCount(GenderColumn(t.rows), ValueCounts(present)[i].0);
  }

  /** The most common birth year is at least as frequent, counted over the
      rows holding it, as any other year. */
  lemma CommonBirthYearCountsRows(t: Table, y: int)
    requires UserStats(t).Ok? && t.hasBirthYear
    ensures Count(BirthYearColumn(t.rows), Some(y)) <=
      Count(BirthYearColumn(t.rows), Some(UserStats(t).value.birth.common))
  {
    PresentCount(BirthYearColumn(t.rows), y);
    PresentCount(BirthYearColumn(t.rows), UserStats(t).value.birth.common);
  }
}
