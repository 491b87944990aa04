/** main: the session loop, repeated while the restart answer is "yes". */
module Session {
  import opened Common
  import opened Text
  import opened Vocabulary
  import opened Trips
  import opened Loader
  import opened Stats
  import opened Reports
  import opened Filters
  import opened Viewer
  import opened Restart

  /** The four reports printed after display_data, in the script's order. */
  datatype Summary = Summary(
    time: TimeReport,
    stations: StationReport,
    durations: DurationReport,
    users: UserReport)

  /** time_stats, station_stats, trip_duration_stats and user_stats on the
      loaded frame; Err names the exception the first failing one raises. */
  function Summarize(t: Table): (r: Result<Summary, Abort>)
    ensures r.Err? <==> t.rows == [] || (t.hasBirthYear && Present(BirthYearColumn(t.rows)) == [])
    ensures r.Err? ==> r.error == if t.rows == [] then EmptyColumn("Travel Time") else EmptyColumn("Birth Year")
  {
    match TimeStats(t.rows)
    case Err(e) => Err(e)
    case Ok(time) =>
      match StationStats(t.rows)
      case Err(e) => Err(e)
      case Ok(stations) =>
        match UserStats(t)
        case Err(e) => Err(e)
        case Ok(users) => Ok(Summary(time, stations, DurationStats(t.rows), users))
  }

  /** The four report calls of main's loop body, in the script's order. */
  method Report(t: Table) returns (r: Result<Summary, Abort>)
    ensures r == Summarize(t)
  {
    var time := TimeStats(t.rows);
    if time.Err? {
      return Err(time.error);
    }
    // station_stats fails exactly on the empty frame, which time_stats has already refused
    var stations := StationStats(t.rows);
    var durations := DurationStats(t.rows);
    var users := UserStats(t);
    if users.Err? {
      return Err(users.error);
    }
    return Ok(Summary(time.value, stations.value, durations, users.value));
  }

  /** Everything one pass of the loop computes and prints before the
      restart prompt; start is where its get_filters began reading. */
  datatype Round = Round(
    start: nat,
    selection: Selection,
    table: Table,
    viewing: Viewing,
    summary: Summary)

  /** The input side of one pass: get_filters, load_data and display_data. */
  datatype Prepared = Prepared(selection: Selection, table: Table, viewing: Viewing)

  function Prepare(files: map<string, Table>, input: seq<string>, pos: nat, days: seq<string>): (r: Result<Prepared, Abort>)
    requires pos <= |input|
    ensures r.Ok? ==> pos < r.value.viewing.next <= |input|
  {
    match Select(input, pos)
    case Err(e) => Err(e)
    case Ok(s) =>
      match LoadDataWith(files, s.city, s.month, s.day, days)
      case Err(e) => Err(e)
      case Ok(t) =>
        match View(t.rows, input, s.next)
        case Err(e) => Err(e)
        case Ok(v) => Ok(Prepared(s, t, v))
  }

  /** What one pass of main's loop body yields when it starts reading at pos:
      each stage is what the corresponding function of the script yields, in
      the script's order, then the restart answer; Err names the exception
      that ends the script. */
  function PlayRound(files: map<string, Table>, input: seq<string>, pos: nat, days: seq<string>): (r: Result<Pass<Round>, Abort>)
    requires pos <= |input|
    ensures r.Ok? ==> r.value.round.start == pos && pos < r.value.round.viewing.next < |input|
    ensures r.Ok? ==> r.value.restart == input[r.value.round.viewing.next]
    ensures r.Ok? ==> r.value.next == r.value.round.viewing.next + 1
  {
    match Prepare(files, input, pos, days)
    case Err(e) => Err(e)
    case Ok(p) =>
      match Summarize(p.table)
      case Err(e) => Err(e)
      case Ok(sum) =>
        if p.viewing.next >= |input| then Err(EndOfInput)
        else Ok(Pass(Round(pos, p.selection, p.table, p.viewing, sum), input[p.viewing.next], p.viewing.next + 1))
  }

  /** get_filters, load_data and display_data, in the script's order. */
  method Gather(files: map<string, Table>, input: seq<string>, pos: nat, days: seq<string>) returns (r: Result<Prepared, Abort>)
    requires pos <= |input|
    ensures r == Prepare(files, input, pos, days)
  {
    var selection := GetFilters(input, pos);
    if selection.Err? {
      return Err(selection.error);
    }
    var s := selection.value;
    var table := LoadDataWith(files, s.city, s.month, s.day, days);
    if table.Err? {
      return Err(table.error);
    }
    var t := table.value;
    var viewing := DisplayData(t.rows, input, s.next);
    if viewing.Err? {
      return Err(viewing.error);
    }
    return Ok(Prepared(s, t, viewing.value));
  }

  /** One pass of main's loop body, from get_filters to the restart answer;
      Err names the exception that ends the script during it. */
  method RunRound(files: map<string, Table>, input: seq<string>, pos: nat, days: seq<string>) returns (r: Result<Pass<Round>, Abort>)
    requires pos <= |input|
    ensures r == PlayRound(files, input, pos, days)
  {
    var prepared := Gather(files, input, pos, days);
    if prepared.Err? {
      return Err(prepared.error);
    }
    var p := prepared.value;
    var summary := Report(p.table);
    if summary.Err? {
      return Err(summary.error);
    }
    if p.viewing.next >= |input| {
      return Err(EndOfInput);
    }
    var restart := input[p.viewing.next];
    var round := Round(pos, p.selection, p.table, p.viewing, summary.value);
    // field by field: equality of the whole pass at once is costly to prove
    ghost var spec := PlayRound(files, input, pos, days);
    assert spec.Ok?;
    assert spec.value.round == round;
    assert spec.value.restart == restart;
    assert spec.value.next == p.viewing.next + 1;
    return Ok(Pass(round, restart, p.viewing.next + 1));
  }

  /** A pass of the session from any position of the input. */
  function Step(files: map<string, Table>, input: seq<string>, days: seq<string>): nat --> Result<Pass<Round>, Abort> {
    (p: nat) requires p <= |input| => PlayRound(files, input, p, days)
  }

  lemma StepsOfSession(files: map<string, Table>, input: seq<string>, days: seq<string>)
    ensures Steps(Step(files, input, days), |input|)
  {
  }

  /** What main yields on the whole input when load_data looks the day up in
      days: DayLabels as the script writes it, WeekdayTitles as intended. */
  function Play(files: map<string, Table>, input: seq<string>, days: seq<string>): (r: Run<Round>)
    ensures |r.passes| <= |input|
  {
    StepsOfSession(files, input, days);
    LoopBounded(Step(files, input, days), |input|, 0);
    Loop(Step(files, input, days), |input|, 0)
  }

  /** main, with load_data looking the day up in days. */
  method RunSession(files: map<string, Table>, input: seq<string>, days: seq<string>) returns (run: Run<Round>)
    ensures run == Play(files, input, days)
  {
    StepsOfSession(files, input, days);
    var step := Step(files, input, days);
    var passes: seq<Pass<Round>> := [];
    var pos := 0;
    var running := true;
    var abort: Option<Abort> := None;
    while running
      invariant pos <= |input|
      invariant running ==> abort.None?
      invariant running ==> Play(files, input, days).passes == passes + Loop(step, |input|, pos).passes
      invariant running ==> Play(files, input, days).abort == Loop(step, |input|, pos).abort
      invariant !running ==> Play(files, input, days).passes == passes && Play(files, input, days).abort == abort
      decreases if running then |input| - pos + 1 else 0
    {
      var round := RunRound(files, input, pos, days);
      LoopOnce(step, |input|, pos);
      if round.Err? {
        abort, running := Some(round.error), false;
      } else {
        var p := round.value;
        ghost var rest := Loop(step, |input|, p.next).passes;
        AppendPass(passes, p, rest);
        passes := passes + [p];
        if !Restarts(p.restart) {
          running := false;
        } else {
          pos := p.next;
        }
      }
    }
    run := Run(passes, abort);
  }

  /** The session repeats exactly while the restart answer is "yes", every
      pass is the pass the script computes from where the previous one
      stopped, and a run cut short ends on the pass that raised, started
      where the last completed one stopped. */
  lemma SessionRuns(files: map<string, Table>, input: seq<string>, days: seq<string>)
    ensures var run := Play(files, input, days);
      (forall i :: 0 <= i < |run.passes| - 1 ==> Lower(run.passes[i].restart) == "yes") &&
      (run.abort.None? ==> |run.passes| > 0 && Lower(run.passes[|run.passes| - 1].restart) != "yes") &&
      (forall i :: 0 <= i < |run.passes| ==>
        StartOf(0, run.passes, i) <= |input| &&
        PlayRound(files, input, StartOf(0, run.passes, i), days) == Ok(run.passes[i])) &&
      (run.abort.Some? ==>
        StartOf(0, run.passes, |run.passes|) <= |input| &&
        PlayRound(files, input, StartOf(0, run.passes, |run.passes|), days) == Err(run.abort.value))
  {
    StepsOfSession(files, input, days);
    RestartsOnlyOnYes(Step(files, input, days), |input|, 0);
    PassesFollowSteps(Step(files, input, days), |input|, 0);
    AbortFollowsSteps(Step(files, input, days), |input|, 0);
  }

  /** With the intended filtering, a round never stops at load_data once the
      city's file is there: every answer get_filters accepts can be applied. */
  lemma {:induction false} LoadNeverRejectsSelection(files: map<string, Table>, input: seq<string>, pos: nat)
    requires pos <= |input|
    requires Select(input, pos).Ok?
    requires CityData[Select(input, pos).value.city] in files
    ensures var s := Select(input, pos).value;
      LoadDataWith(files, s.city, s.month, s.day, WeekdayTitles).Ok?
  {
    var s := Select(input, pos).value;
    CityNamesAreKeys();
    FilterAccepted(files[CityData[s.city]], s.month, s.day);
  }

  /** As written, a pass whose day answer is "thursday" ends the script at
      load_data with ValueError, once the city's file is there. */
  lemma AsWrittenThursdayRaises(files: map<string, Table>, input: seq<string>, pos: nat)
    requires pos <= |input|
    requires Select(input, pos).Ok? && Select(input, pos).value.day == "thursday"
    requires CityData[Select(input, pos).value.city] in files
    ensures PlayRound(files, input, pos, DayLabels) == Err(NotInList("Thursday"))
  {
    var s := Select(input, pos).value;
    CityNamesAreKeys();
    LoadThursdayRaises(files, s.city, s.month);
  }
}
