/** Answers read from standard input, modelled as one sequence of lines that
    get_filters, display_data and the restart prompt consume in turn. */
module Input {
  import opened Common
  import opened Text

  /** What makes a loop that reads answers stop. */
  datatype Test = InVocabulary(vocab: seq<string>) | NotYes

  predicate Passes(t: Test, answer: string) {
    match t
    case InVocabulary(v) => Lower(answer) in v
    case NotYes => Lower(answer) != "yes"
  }

  /** The position of the first answer at or after pos that passes the test;
      None when the input ends first (input() then raises EOFError). */
  function FirstPassing(input: seq<string>, pos: nat, t: Test): (r: Option<nat>)
    ensures r.Some? ==> pos <= r.value < |input| && Passes(t, input[r.value])
    ensures r.Some? ==> forall k :: pos <= k < r.value ==> !Passes(t, input[k])
    ensures r.None? ==> forall k :: pos <= k < |input| ==> !Passes(t, input[k])
    decreases |input| - pos
  {
    if pos >= |input| then None
    else if Passes(t, input[pos]) then Some(pos)
    else FirstPassing(input, pos + 1, t)
  }

  /** The search may start after answers known to fail. */
  lemma {:induction false} FirstPassingSkip(input: seq<string>, pos: nat, t: Test)
    requires pos < |input| && !Passes(t, input[pos])
    ensures FirstPassing(input, pos, t) == FirstPassing(input, pos + 1, t)
  {
  }
}
