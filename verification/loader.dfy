/** load_data: resolving the city's file and the optional month and day filters. */
module Loader {
  import opened Common
  import opened Text
  import opened Vocabulary
  import opened Trips

  /** The filtering of load_data (lines 71-79) with the weekday list it
      looks the title-cased day up in as a parameter. */
  function FilterWith(t: Table, month: string, day: string, days: seq<string>): (r: Result<Table, Abort>)
    ensures r.Ok? ==> r.value.hasGender == t.hasGender && r.value.hasBirthYear == t.hasBirthYear
    ensures r.Ok? ==> forall x :: x in r.value.rows ==> x in t.rows
  {
    var byMonth :=
      if month == "all" then Ok(t)
      else match IndexOf(MonthNames, month)
        case None => Err(NotInList(month))
        case Some(i) => Ok(t.(rows := Where(t.rows, MonthIs(i + 1))));
    match byMonth
    case Err(e) => Err(e)
    case Ok(u) =>
      if day == "all" then Ok(u)
      else match IndexOf(days, Title(day))
        case None => Err(NotInList(Title(day)))
        case Some(j) => Ok(u.(rows := Where(u.rows, WeekdayIs(j))))
  }

  /** The filtering as the script writes it, against the list holding " Thursday". */
  function FilterAsWritten(t: Table, month: string, day: string): (r: Result<Table, Abort>)
    ensures r.Ok? ==> forall x :: x in r.value.rows ==> x in t.rows
  {
    FilterWith(t, month, day, DayLabels)
  }

  /** The filtering as intended, against the title-cased weekday names. */
  function Filter(t: Table, month: string, day: string): (r: Result<Table, Abort>)
    ensures r.Ok? ==> forall x :: x in r.value.rows ==> x in t.rows
  {
    FilterWith(t, month, day, WeekdayTitles)
  }

  /** load_data with the weekday list it looks the day up in as a parameter:
      read the city's file (given here as a map from file name to its parsed
      table) and filter it. */
  function LoadDataWith(files: map<string, Table>, city: string, month: string, day: string,
                        days: seq<string>): (r: Result<Table, Abort>)
    ensures city !in CityData ==> r == Err(UnknownCity(city))
    ensures city in CityData && CityData[city] !in files ==> r == Err(MissingFile(CityData[city]))
    ensures city in CityData && CityData[city] in files ==> r == FilterWith(files[CityData[city]], month, day, days)
  {
    if city !in CityData then Err(UnknownCity(city))
    else if CityData[city] !in files then Err(MissingFile(CityData[city]))
    else FilterWith(files[CityData[city]], month, day, days)
  }

  /** load_data as the script writes it, with the list holding " Thursday". */
  function LoadData(files: map<string, Table>, city: string, month: string, day: string): (r: Result<Table, Abort>)
    ensures city !in CityData ==> r == Err(UnknownCity(city))
    ensures city in CityData && CityData[city] !in files ==> r == Err(MissingFile(CityData[city]))
    ensures city in CityData && CityData[city] in files ==> r == FilterAsWritten(files[CityData[city]], month, day)
  {
    LoadDataWith(files, city, month, day, DayLabels)
  }

  /** Title-casing a word of lower-case letters capitalises its first letter only. */
  lemma TitleOfLowerWord(s: string)
    requires |s| > 0
    requires forall i :: 0 <= i < |s| ==> IsLower(s[i])
    ensures Title(s) == [ToUpperChar(s[0])] + s[1..]
  {
  }

  /** Each accepted weekday title-cases to its entry in the intended list. */
  lemma {:induction false} TitleOfDayChoice(j: int)
    requires 0 <= j < 7
    ensures Title(DayChoices[j + 1]) == WeekdayTitles[j]
  {
    var d := DayChoices[j + 1];
    assert forall i :: 0 <= i < |d| ==> IsLower(d[i]);
    TitleOfLowerWord(d);
  }

  /** With "all" for both filters, every row is kept, in its order. */
  lemma LoadAll(t: Table)
    ensures Filter(t, "all", "all") == Ok(t)
    ensures FilterAsWritten(t, "all", "all") == Ok(t)
  {
  }

  /** A month filter keeps exactly the rows whose month is the name's index
      among the six month names plus one. */
  lemma {:induction false} FilterMonth(t: Table, i: int)
    requires 0 <= i < |MonthNames|
    ensures Filter(t, MonthNames[i], "all") == Ok(t.(rows := Where(t.rows, MonthIs(i + 1))))
    ensures 1 <= i + 1 <= 6
  {
    var m := MonthNames[i];
    var k := IndexOf(MonthNames, m);
    assert k.Some? && k.value == i;
  }

  /** Where the title-cased day is found in the weekday list at j, the day
      filter keeps exactly the rows of the month step whose dayofweek is j. */
  lemma DayFound(t: Table, m: string, d: string, days: seq<string>, j: nat)
    requires m in MonthChoices && d != "all"
    requires IndexOf(days, Title(d)) == Some(j)
    ensures FilterWith(t, m, "all", days).Ok?
    ensures FilterWith(t, m, d, days) ==
      Ok(FilterWith(t, m, "all", days).value.(rows := Where(FilterWith(t, m, "all", days).value.rows, WeekdayIs(j))))
  {
    if m != "all" {
      MonthChoiceIndexed(m);
    }
  }

  /** Where the title-cased day is missing from the weekday list, the
      filtering raises with that title. */
  lemma DayMissing(t: Table, m: string, d: string, days: seq<string>)
    requires m in MonthChoices && d != "all"
    requires IndexOf(days, Title(d)).None?
    ensures FilterWith(t, m, d, days) == Err(NotInList(Title(d)))
  {
    if m != "all" {
      MonthChoiceIndexed(m);
    }
  }

  /** After the month step, an accepted weekday keeps exactly the rows whose
      dayofweek is its index, Monday = 0. */
  lemma FilterDay(t: Table, m: string, j: int)
    requires m in MonthChoices
    requires 0 <= j < 7
    ensures Filter(t, m, "all").Ok?
    ensures Filter(t, m, DayChoices[j + 1]) ==
      Ok(Filter(t, m, "all").value.(rows := Where(Filter(t, m, "all").value.rows, WeekdayIs(j))))
  {
    TitleOfDayChoice(j);
    WeekdayTitlesIndexed(j);
    DayFound(t, m, DayChoices[j + 1], WeekdayTitles, j);
  }

  /** No answer get_filters accepts makes the intended filtering fail. */
  lemma FilterAccepted(t: Table, m: string, d: string)
    requires m in MonthChoices && d in DayChoices
    ensures Filter(t, m, d).Ok?
  {
    if d != "all" {
      var k := IndexOf(DayChoices, d);
      assert k.value != 0;
      FilterDay(t, m, k.value - 1);
    } else if m != "all" {
      MonthChoiceIndexed(m);
    }
  }

  /** As written, "thursday" is accepted by get_filters but title-cases to
      "Thursday", which the list does not hold: list.index raises. */
  lemma {:induction false} ThursdayFailsAsWritten(t: Table, m: string)
    requires m in MonthChoices
    ensures "thursday" in DayChoices
    ensures FilterAsWritten(t, m, "thursday") == Err(NotInList("Thursday"))
  {
    TitleOfDayChoice(3);
    DayListsDifferAtThursday();
    DayMissing(t, m, "thursday", DayLabels);
  }

  /** The filtering depends on the weekday list only through the lookup of the day. */
  lemma SameLookupSameFilter(t: Table, m: string, d: string, days1: seq<string>, days2: seq<string>)
    requires IndexOf(days1, Title(d)) == IndexOf(days2, Title(d))
    ensures FilterWith(t, m, d, days1) == FilterWith(t, m, d, days2)
  {
  }

  /** Apart from Thursday, the written list finds each title at its intended index. */
  lemma WrittenLookupAgrees(j: int)
    requires 0 <= j < 7 && j != 3
    ensures IndexOf(DayLabels, WeekdayTitles[j]) == Some(j)
    ensures IndexOf(WeekdayTitles, WeekdayTitles[j]) == Some(j)
  {
    DayListsDifferAtThursday();
    WeekdayTitlesIndexed(j);
    DayLabelsIndexed(j);
  }

  /** As written, every other weekday is filtered as intended. */
  lemma {:induction false} OtherDaysAsWritten(t: Table, m: string, j: int)
    requires 0 <= j < 7 && j != 3
    ensures FilterAsWritten(t, m, DayChoices[j + 1]) == Filter(t, m, DayChoices[j + 1])
  {
    TitleOfDayChoice(j);
    WrittenLookupAgrees(j);
    SameLookupSameFilter(t, m, DayChoices[j + 1], DayLabels, WeekdayTitles);
  }

  /** As written, load_data raises for the day answer "thursday" whatever the
      city and the month, once the city's file is there. */
  lemma LoadThursdayRaises(files: map<string, Table>, city: string, m: string)
    requires city in CityData && CityData[city] in files
    requires m in MonthChoices
    ensures LoadData(files, city, m, "thursday") == Err(NotInList("Thursday"))
  {
    ThursdayFailsAsWritten(files[CityData[city]], m);
  }
}
