/** The fixed vocabularies of the script and list.index over them. */
module Vocabulary {
  import opened Common
  import opened Text

  /** CITY_DATA: the city names a user may choose, each with its data file. */
  const CityData: map<string, string> :=
    map["chicago" := "chicago.csv",
        "new york city" := "new_york_city.csv",
        "washington" := "washington.csv"]

  /** The month answers get_filters accepts. */
  const MonthChoices: seq<string> :=
    ["all", "january", "february", "march", "april", "may", "june"]

  /** The day answers get_filters accepts. */
  const DayChoices: seq<string> :=
    ["all", "monday", "tuesday", "wednesday", "thursday", "friday", "saturday", "sunday"]

  /** The six months load_data can filter on, in calendar order. */
  const MonthNames: seq<string> :=
    ["january", "february", "march", "april", "may", "june"]

  /** The weekday list of load_data and time_stats as the script writes it:
      the Thursday entry carries a leading space. */
  const DayLabels: seq<string> :=
    ["Monday", "Tuesday", "Wednesday", " Thursday", "Friday", "Saturday", "Sunday"]

  /** The weekday list as intended: the title-cased names, Monday first. */
  const WeekdayTitles: seq<string> :=
    ["Monday", "Tuesday", "Wednesday", "Thursday", "Friday", "Saturday", "Sunday"]

  /** list.index: the first position holding x, or None where Python raises ValueError. */
  function IndexOf(xs: seq<string>, x: string): (r: Option<nat>)
    ensures r.Some? ==> r.value < |xs| && xs[r.value] == x
    ensures r.Some? ==> forall j :: 0 <= j < r.value ==> xs[j] != x
    ensures r.None? <==> x !in xs
  {
    if xs == [] then None
    else if xs[0] == x then Some(0)
    else match IndexOf(xs[1..], x)
      case None => None
      case Some(k) => Some(k + 1)
  }

  /** An entry that no earlier entry equals is found where it is. */
  lemma IndexOfFirst(xs: seq<string>, j: int)
    requires 0 <= j < |xs|
    requires forall i :: 0 <= i < j ==> xs[i] != xs[j]
    ensures IndexOf(xs, xs[j]) == Some(j)
  {
  }

  /** Each intended weekday name is found at its own position. */
  lemma WeekdayTitlesIndexed(j: int)
    requires 0 <= j < 7
    ensures IndexOf(WeekdayTitles, WeekdayTitles[j]) == Some(j)
  {
    assert forall i :: 0 <= i < j ==>
      |WeekdayTitles[i]| != |WeekdayTitles[j]| || WeekdayTitles[i][0] != WeekdayTitles[j][0];
    IndexOfFirst(WeekdayTitles, j);
  }

  /** Apart from Thursday, each written weekday label is found at its own position. */
  lemma DayLabelsIndexed(j: int)
    requires 0 <= j < 7 && j != 3
    ensures IndexOf(DayLabels, DayLabels[j]) == Some(j)
  {
    DayListsDifferAtThursday();
    WeekdayTitlesIndexed(j);
    forall i | 0 <= i < j
      ensures DayLabels[i] != DayLabels[j]
    {
      if i == 3 {
        assert DayLabels[i][0] == ' ' != WeekdayTitles[j][0];
      }
    }
    IndexOfFirst(DayLabels, j);
  }

  /** No vocabulary contains the empty string, which get_filters uses as
      its "nothing accepted yet" sentinel. */
  lemma NoEmptyChoice()
    ensures "" !in CityData && "" !in MonthChoices && "" !in DayChoices
  {
  }

  /** Every accepted month other than "all" has a position among the six
      month names, so the month number it filters on lies in 1..6. */
  lemma {:induction false} MonthChoiceIndexed(m: string)
    requires m in MonthChoices && m != "all"
    ensures IndexOf(MonthNames, m).Some?
    ensures 1 <= IndexOf(MonthNames, m).value + 1 <= 6
    ensures MonthNames[IndexOf(MonthNames, m).value] == m
  {
    assert MonthChoices == ["all"] + MonthNames;
    assert m in MonthNames;
  }

  /** The written and the intended weekday lists differ at Thursday only. */
  lemma DayListsDifferAtThursday()
    ensures |DayLabels| == |WeekdayTitles| == 7
    ensures forall i :: 0 <= i < 7 && i != 3 ==> DayLabels[i] == WeekdayTitles[i]
    ensures DayLabels[3] != WeekdayTitles[3]
    ensures "Thursday" !in DayLabels
  {
    assert DayLabels[3] == " Thursday";
  }
}
