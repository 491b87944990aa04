/** get_filters: three prompts, each repeated until the lower-cased answer
    is one of its fixed choices. */
module Filters {
  import opened Common
  import opened Text
  import opened Vocabulary
  import opened Input

  /** The accepted cities in CITY_DATA's order. */
  const CityNames: seq<string> := ["chicago", "new york city", "washington"]

  const Greeting: string := "Hello! Let's explore some US bikeshare data!"

  const Separator: string := "----------------------------------------"

  lemma CityNamesAreKeys()
    ensures forall c :: c in CityNames <==> c in CityData
  {
  }

  /** The line printed for a rejected answer, e.g. "City boston not available in data set". */
  function Rejection(field: string, answer: string): (r: string)
    ensures |r| == |field| + |answer| + 27
    ensures r[..|field|] == field
    ensures r[|field|] == ' '
    ensures r[|field| + 1..|field| + 1 + |answer|] == Lower(answer)
    ensures r[|field| + 1 + |answer|..] == " not available in data set"
  {
    field + " " + Lower(answer) + " not available in data set"
  }

  /** Two answers draw the same rejection line exactly when they agree once
      lower-cased: the line names the answer, not its spelling. */
  lemma RejectionNamesAnswer(field: string, a: string, b: string)
    ensures Rejection(field, a) == Rejection(field, b) <==> Lower(a) == Lower(b)
  {
    if Rejection(field, a) == Rejection(field, b) {
      assert |a| == |b|;
      assert Lower(a) == Rejection(field, a)[|field| + 1..|field| + 1 + |a|];
    }
  }

  /** The rejection lines for the answers input[from..to]. */
  function Rejections(field: string, input: seq<string>, from: nat, to: nat): seq<string>
    requires from <= to <= |input|
  {
    seq(to - from, i requires 0 <= i < to - from => Rejection(field, input[from + i]))
  }

  /** The lines for consecutive stretches of answers follow one another. */
  lemma RejectionsSplit(field: string, input: seq<string>, from: nat, mid: nat, to: nat)
    requires from <= mid <= to <= |input|
    ensures Rejections(field, input, from, to) == Rejections(field, input, from, mid) + Rejections(field, input, mid, to)
  {
  }

  /** One accepted answer: its lower-cased value, the position after it, and
      the rejection lines printed on the way. */
  datatype Answer = Answer(value: string, next: nat, rejected: seq<string>)

  /** What one prompt loop yields, as a function of the input: the first answer
      whose lower-cased form is a choice, every earlier answer rejected. */
  function Accept(input: seq<string>, pos: nat, field: string, vocab: seq<string>): (r: Result<Answer, Abort>)
    requires pos <= |input|
    ensures r.Ok? ==> r.value.value in vocab && pos < r.value.next <= |input|
    ensures r.Err? ==> r.error == EndOfInput
    ensures r.Err? <==> forall k :: pos <= k < |input| ==> Lower(input[k]) !in vocab
  {
    match FirstPassing(input, pos, InVocabulary(vocab))
    case None => Err(EndOfInput)
    case Some(k) => Ok(Answer(Lower(input[k]), k + 1, Rejections(field, input, pos, k)))
  }

  /** One of the three while loops of get_filters: read answers until one,
      lower-cased, is a choice; print a rejection line for every other. */
  method Ask(input: seq<string>, pos: nat, field: string, vocab: seq<string>) returns (r: Result<Answer, Abort>)
    requires pos <= |input|
    requires "" !in vocab
    ensures r == Accept(input, pos, field, vocab)
  {
    var t := InVocabulary(vocab);
    var choice := "";
    var at := pos;
    var rejected: seq<string> := [];
    while choice == ""
      invariant pos <= at <= |input|
      invariant choice == "" ==> FirstPassing(input, pos, t) == FirstPassing(input, at, t)
      invariant choice == "" ==> rejected == Rejections(field, input, pos, at)
      invariant choice != "" ==> pos < at && FirstPassing(input, pos, t) == Some(at - 1)
      invariant choice != "" ==> choice == Lower(input[at - 1])
      invariant choice != "" ==> rejected == Rejections(field, input, pos, at - 1)
      decreases |input| - at, if choice == "" then 1 else 0
    {
      if at >= |input| {
        return Err(EndOfInput);
      }
      var answer := Lower(input[at]);
      if answer in vocab {
        choice := answer;
      } else {
        FirstPassingSkip(input, at, t);
        rejected := rejected + [Rejection(field, input[at])];
      }
      at := at + 1;
    }
    return Ok(Answer(choice, at, rejected));
  }

  /** The triple get_filters returns, the position after the day answer, and
      the lines it prints. */
  datatype Selection = Selection(city: string, month: string, day: string, next: nat, messages: seq<string>)

  /** What get_filters yields, as a function of the input. */
  function Select(input: seq<string>, pos: nat): (r: Result<Selection, Abort>)
    requires pos <= |input|
    ensures r.Ok? ==> r.value.city in CityNames && r.value.month in MonthChoices && r.value.day in DayChoices
    ensures r.Ok? ==> pos + 3 <= r.value.next <= |input|
  {
    match Accept(input, pos, "City", CityNames)
    case Err(e) => Err(e)
    case Ok(c) =>
      match Accept(input, c.next, "Month", MonthChoices)
      case Err(e) => Err(e)
      case Ok(m) =>
        match Accept(input, m.next, "Day", DayChoices)
        case Err(e) => Err(e)
        case Ok(d) =>
          Ok(Selection(c.value, m.value, d.value, d.next,
                       [Greeting] + c.rejected + m.rejected + d.rejected + [Separator]))
  }

  /** get_filters. */
  method GetFilters(input: seq<string>, pos: nat) returns (r: Result<Selection, Abort>)
    requires pos <= |input|
    ensures r == Select(input, pos)
    ensures r.Ok? ==> r.value.city in CityData && r.value.month in MonthChoices && r.value.day in DayChoices
  {
    NoEmptyChoice();
    CityNamesAreKeys();
    var city := Ask(input, pos, "City", CityNames);
    if city.Err? {
      return Err(city.error);
    }
    var month := Ask(input, city.value.next, "Month", MonthChoices);
    if month.Err? {
      return Err(month.error);
    }
    var day := Ask(input, month.value.next, "Day", DayChoices);
    if day.Err? {
      return Err(day.error);
    }
    var messages := [Greeting] + city.value.rejected + month.value.rejected + day.value.rejected + [Separator];
    return Ok(Selection(city.value.value, month.value.value, day.value.value, day.value.next, messages));
  }

  /** Each field is the first answer from where its prompt starts whose
      lower-cased form is a choice; the answers before it are all rejected,
      the empty answer among them. */
  lemma FieldIsFirstAccepted(input: seq<string>, pos: nat, field: string, vocab: seq<string>)
    requires pos <= |input|
    requires Accept(input, pos, field, vocab).Ok?
    ensures var a := Accept(input, pos, field, vocab).value;
      a.value == Lower(input[a.next - 1]) &&
      (forall k :: pos <= k < a.next - 1 ==> Lower(input[k]) !in vocab) &&
      |a.rejected| == a.next - 1 - pos
  {
  }

  /** Without an acceptable answer before the input ends, get_filters never
      returns: the city prompt keeps rejecting and the month is never asked. */
  lemma {:induction false} NoCityNoMonth(input: seq<string>, pos: nat)
    requires pos <= |input|
    requires forall k :: pos <= k < |input| ==> Lower(input[k]) !in CityNames
    ensures Select(input, pos) == Err(EndOfInput)
  {
  }
}
