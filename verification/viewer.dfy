/** display_data: pages of five rows, shown while the answer is "yes". */
module Viewer {
  import opened Common
  import opened Text
  import opened Trips
  import opened Input

  function MinNat(a: nat, b: nat): nat { if a <= b then a else b }

  /** df.iloc[lo:hi]: positions past the end are clamped, so the slice may be short or empty. */
  function Slice(rows: seq<Trip>, lo: nat, hi: nat): (r: seq<Trip>)
    ensures lo <= hi ==> |r| <= hi - lo
    ensures lo <= hi <= |rows| ==> r == rows[lo..hi]
    ensures lo < |rows| < hi ==> r == rows[lo..]
    ensures lo >= |rows| ==> r == []
  {
    var a := MinNat(lo, |rows|);
    var b := MinNat(hi, |rows|);
    if a <= b then rows[a..b] else []
  }

  /** The k-th page printed, counting from 0: df.iloc[5k:5k+5]. */
  function Page(rows: seq<Trip>, k: nat): (r: seq<Trip>)
    ensures |r| <= 5
    ensures 5 * k + 5 <= |rows| ==> r == rows[5 * k..5 * k + 5]
    ensures 5 * k < |rows| < 5 * k + 5 ==> r == rows[5 * k..]
    ensures 5 * k >= |rows| ==> r == []
  {
    Slice(rows, 5 * k, 5 * k + 5)
  }

  /** The first n pages. */
  function Pages(rows: seq<Trip>, n: nat): seq<seq<Trip>> {
    seq(n, k requires 0 <= k < n => Page(rows, k))
  }

  /** One more "yes" adds the next page. */
  lemma PagesNext(rows: seq<Trip>, n: nat)
    ensures Pages(rows, n + 1) == Pages(rows, n) + [Page(rows, n)]
  {
    assert Pages(rows, n + 1)[..n] == Pages(rows, n);
  }

  function Flatten(pages: seq<seq<Trip>>): seq<Trip> {
    if pages == [] then [] else Flatten(pages[..|pages| - 1]) + pages[|pages| - 1]
  }

  /** The pages printed, start_loc at the end, and the position after the
      answer that stopped the loop. */
  datatype Viewing = Viewing(pages: seq<seq<Trip>>, startLoc: nat, next: nat)

  /** What display_data yields, as a function of the input: one page per
      leading "yes", up to the first other answer. */
  function View(rows: seq<Trip>, input: seq<string>, pos: nat): (r: Result<Viewing, Abort>)
    requires pos <= |input|
    ensures r.Ok? ==> r.value.startLoc == 5 * |r.value.pages|
    ensures r.Ok? ==> pos < r.value.next <= |input| && Lower(input[r.value.next - 1]) != "yes"
    ensures r.Ok? ==> forall k :: pos <= k < r.value.next - 1 ==> Lower(input[k]) == "yes"
    ensures r.Ok? ==> r.value.pages == Pages(rows, r.value.next - 1 - pos)
    ensures r.Err? ==> r.error == EndOfInput
    ensures r.Err? <==> forall k :: pos <= k < |input| ==> Lower(input[k]) == "yes"
  {
    match FirstPassing(input, pos, NotYes)
    case None => Err(EndOfInput)
    case Some(k) => Ok(Viewing(Pages(rows, k - pos), 5 * (k - pos), k + 1))
  }

  /** display_data. */
  method DisplayData(rows: seq<Trip>, input: seq<string>, pos: nat) returns (r: Result<Viewing, Abort>)
    requires pos <= |input|
    ensures r == View(rows, input, pos)
  {
    if pos >= |input| {
      return Err(EndOfInput);
    }
    var viewData := input[pos];
    var at := pos + 1;
    var startLoc := 0;
    var pages: seq<seq<Trip>> := [];
    while Lower(viewData) == "yes"
      invariant pos < at <= |input|
      invariant Lower(viewData) == Lower(input[at - 1])
      invariant FirstPassing(input, pos, NotYes) == FirstPassing(input, at - 1, NotYes)
      invariant pages == Pages(rows, at - 1 - pos)
      invariant startLoc == 5 * |pages|
      decreases |input| - at
    {
      FirstPassingSkip(input, at - 1, NotYes);
      PagesNext(rows, at - 1 - pos);
      pages := pages + [Slice(rows, startLoc, startLoc + 5)];
      startLoc := startLoc + 5;
      if at >= |input| {
        return Err(EndOfInput);
      }
      viewData := Lower(input[at]);
      LowerIdempotent(input[at]);
      at := at + 1;
    }
    return Ok(Viewing(pages, startLoc, at));
  }

  /** The first n pages, put together, are the first 5n rows (or all of them). */
  lemma {:induction false} PagesCover(rows: seq<Trip>, n: nat)
    ensures Flatten(Pages(rows, n)) == rows[..MinNat(5 * n, |rows|)]
  {
    if n > 0 {
      var ps := Pages(rows, n);
      assert ps[..n - 1] == Pages(rows, n - 1);
      PagesCover(rows, n - 1);
      var a := MinNat(5 * (n - 1), |rows|);
      var b := MinNat(5 * n, |rows|);
      assert ps[n - 1] == rows[a..b];
      assert rows[..a] + rows[a..b] == rows[..b];
    }
  }

  /** Answering "yes" ceil(N/5) times shows every row, each once and in order. */
  lemma ExhaustsRows(rows: seq<Trip>, n: nat)
    requires 5 * n >= |rows|
    ensures Flatten(Pages(rows, n)) == rows
  {
    PagesCover(rows, n);
  }
}
