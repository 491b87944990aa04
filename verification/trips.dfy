/** Trip records and the row selection df.loc[mask] that load_data applies. */
module Trips {
  import opened Common

  type Month = m: int | 1 <= m <= 12 witness 1
  type Weekday = d: int | 0 <= d <= 6
  type Hour = h: int | 0 <= h <= 23

  /** One row of a city file after 'Start Time' is parsed: month, dayofweek
      (Monday = 0) and hour of the start, and both timestamps in seconds.
      Gender and Birth Year are None where the cell is empty. */
  datatype Trip = Trip(
    month: Month,
    weekday: Weekday,
    hour: Hour,
    startTime: int,
    endTime: int,
    startStation: string,
    endStation: string,
    userType: string,
    gender: Option<string>,
    birthYear: Option<int>)

  /** A loaded frame: its rows, and whether the optional columns exist
      (the Washington file has neither). */
  datatype Table = Table(rows: seq<Trip>, hasGender: bool, hasBirthYear: bool)

  /** The two masks load_data builds. */
  datatype Criterion = MonthIs(month: int) | WeekdayIs(weekday: int)

  predicate Holds(c: Criterion, t: Trip) {
    match c
    case MonthIs(m) => t.month == m
    case WeekdayIs(d) => t.weekday == d
  }

  /** df.loc[mask]: the rows the mask keeps, in their original order. */
  function Where(rows: seq<Trip>, c: Criterion): (r: seq<Trip>)
    ensures |r| <= |rows|
    ensures forall t :: t in r ==> t in rows && Holds(c, t)
  {
    if rows == [] then []
    else (if Holds(c, rows[0]) then [rows[0]] else []) + Where(rows[1..], c)
  }

  /** A row is kept exactly when it is a row of the frame and satisfies the mask. */
  lemma {:induction false} WhereMember(rows: seq<Trip>, c: Criterion, t: Trip)
    ensures t in Where(rows, c) <==> t in rows && Holds(c, t)
  {
    if rows != [] {
      WhereMember(rows[1..], c, t);
      assert rows == [rows[0]] + rows[1..];
    }
  }

  /** Selection distributes over concatenation; with WhereSingle this fixes the
      result uniquely: the satisfying rows, none reordered. */
  lemma {:induction false} WhereAppend(a: seq<Trip>, b: seq<Trip>, c: Criterion)
    ensures Where(a + b, c) == Where(a, c) + Where(b, c)
  {
    if a == [] {
      assert a + b == b;
    } else {
      assert (a + b)[1..] == a[1..] + b;
      WhereAppend(a[1..], b, c);
    }
  }

  lemma WhereSingle(t: Trip, c: Criterion)
    ensures Where([t], c) == if Holds(c, t) then [t] else []
  {
    assert [t][1..] == [];
  }

  /** Each row is kept as many times as it occurs when it satisfies the mask, else never. */
  lemma {:induction false} WhereCount(rows: seq<Trip>, c: Criterion, t: Trip)
    ensures multiset(Where(rows, c))[t] == if Holds(c, t) then multiset(rows)[t] else 0
  {
    if rows != [] {
      WhereCount(rows[1..], c, t);
      var head := if Holds(c, rows[0]) then [rows[0]] else [];
      assert Where(rows, c) == head + Where(rows[1..], c);
      assert multiset(Where(rows, c)) == multiset(head) + multiset(Where(rows[1..], c));
      assert rows == [rows[0]] + rows[1..];
      assert multiset(rows) == multiset([rows[0]]) + multiset(rows[1..]);
    }
  }

  /** A mask every row satisfies removes and reorders nothing. */
  lemma {:induction false} WhereAllHold(rows: seq<Trip>, c: Criterion)
    requires forall t :: t in rows ==> Holds(c, t)
    ensures Where(rows, c) == rows
  {
    if rows != [] {
      WhereAllHold(rows[1..], c);
    }
  }

  /** Applying the same mask twice is applying it once. */
  lemma {:induction false} WhereIdempotent(rows: seq<Trip>, c: Criterion)
    ensures Where(Where(rows, c), c) == Where(rows, c)
  {
    WhereAllHold(Where(rows, c), c);
  }
}
