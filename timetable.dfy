/**
 The timetable grid: `make_schedule` lays the shuffled class pool out over
 the week, day by day and period by period, and `valid` rejects a grid in
 which a day holds the same subject in two consecutive periods.

 A grid is a list of days, each a list of periods. A cell is `None` until
 `make_schedule` writes a subject into it, as in the source, where the grid
 is first filled with `None`.
 */
module Timetable {

  import opened ClassPool

  datatype Option<T> = None | Some(value: T)

  type Cell = Option<Subject>

  type Grid = seq<seq<Cell>>

  /** A day whose periods hold the given subjects, in order. */
  function FilledRow(xs: seq<Subject>): seq<Cell> {
    seq(|xs|, k requires 0 <= k < |xs| => Some(xs[k]))
  }

  /** A filled day holds each subject as often as the pool entries it was filled from, and no `None`. */
  lemma {:induction false} FilledRowCount(xs: seq<Subject>, s: Subject)
    ensures multiset(FilledRow(xs))[Some(s)] == multiset(xs)[s]
    ensures multiset(FilledRow(xs))[None] == 0
  {
    if xs != [] {
      var n := |xs| - 1;
      FilledRowCount(xs[..n], s);
      assert FilledRow(xs) == FilledRow(xs[..n]) + [Some(xs[n])];
      assert xs == xs[..n] + [xs[n]];
    }
  }

  /** Stated once so that nat checks on products do not send the solver into nonlinear search. */
  lemma {:induction false} MulNat(a: nat, b: nat)
    ensures a * b >= 0
  {
  }

  lemma {:induction false} MulStep(days: nat, periods: nat)
    requires days >= 1
    ensures (days - 1) * periods >= 0
    ensures days * periods == (days - 1) * periods + periods
    ensures periods <= days * periods
  {
  }

  /** A day that exists ends no later than the week. */
  lemma {:induction false} MulLess(i: nat, days: nat, periods: nat)
    requires i < days
    ensures i * periods + periods <= days * periods
    decreases days
  {
    MulStep(days, periods);
    if i + 1 < days {
      MulLess(i, days - 1, periods);
    }
  }

  /** Reference layout: the first `periods` entries form the first day, the next `periods` the second, and so on. */
  function Layout(classes: seq<Subject>, days: nat, periods: nat): (r: Grid)
    requires days * periods <= |classes|
    ensures |r| == days
    decreases days
  {
    if days == 0 then []
    else
      MulStep(days, periods);
      [FilledRow(classes[..periods])] + Layout(classes[periods..], days - 1, periods)
  }

  lemma {:induction false} LayoutShape(classes: seq<Subject>, days: nat, periods: nat)
    requires days * periods <= |classes|
    ensures |Layout(classes, days, periods)| == days
    ensures forall i :: 0 <= i < days ==> |Layout(classes, days, periods)[i]| == periods
    decreases days
  {
    if days > 0 {
      MulStep(days, periods);
      LayoutShape(classes[periods..], days - 1, periods);
    }
  }

  /** Day i is filled from pool entries i * periods up to (i + 1) * periods. */
  lemma {:induction false} LayoutRow(classes: seq<Subject>, days: nat, periods: nat, i: nat)
    requires days * periods <= |classes|
    requires i < days
    ensures i * periods + periods <= days * periods
    ensures |Layout(classes, days, periods)| == days
    ensures Layout(classes, days, periods)[i] == FilledRow(classes[i * periods..i * periods + periods])
    decreases days
  {
    MulStep(days, periods);
    MulLess(i, days, periods);
    LayoutShape(classes, days, periods);
    var rest := classes[periods..];
    if i > 0 {
      LayoutRow(rest, days - 1, periods, i - 1);
      MulStep(i, periods);
      var prev := (i - 1) * periods;
      assert rest[prev..prev + periods] == classes[i * periods..i * periods + periods];
    }
  }

  /** Row-major indexing: day i, period j holds pool entry i * periods + j. */
  lemma {:induction false} LayoutAt(classes: seq<Subject>, days: nat, periods: nat, i: nat, j: nat)
    requires days * periods <= |classes|
    requires i < days && j < periods
    ensures i * periods + j < days * periods
    ensures |Layout(classes, days, periods)| == days
    ensures |Layout(classes, days, periods)[i]| == periods
    ensures Layout(classes, days, periods)[i][j] == Some(classes[i * periods + j])
  {
    LayoutRow(classes, days, periods, i);
  }

  /** The number of cells of the grid that hold subject s. */
  function Occurrences(grid: Grid, s: Subject): nat {
    if grid == [] then 0 else multiset(grid[0])[Some(s)] + Occurrences(grid[1..], s)
  }

  /** The grid holds each subject exactly as often as the first days * periods pool entries do. */
  lemma {:induction false} LayoutOccurrences(classes: seq<Subject>, days: nat, periods: nat, s: Subject)
    requires days * periods <= |classes|
    ensures Occurrences(Layout(classes, days, periods), s) == multiset(classes[..days * periods])[s]
    decreases days
  {
    if days > 0 {
      MulStep(days, periods);
      var rest := classes[periods..];
      LayoutOccurrences(rest, days - 1, periods, s);
      FilledRowCount(classes[..periods], s);
      assert classes[..days * periods] == classes[..periods] + rest[..(days - 1) * periods];
    }
  }

  /** Lines 30-32 for one day: write the next |row| pool entries into the day's periods. */
  method FillDay(row: seq<Cell>, classes: seq<Subject>, start: nat) returns (filled: seq<Cell>, next: nat)
    requires start + |row| <= |classes|
    ensures filled == FilledRow(classes[start..start + |row|])
    ensures next == start + |row|
  {
    filled, next := row, start;
    for j := 0 to |row|
      invariant |filled| == |row| && next == start + j
      invariant forall c :: 0 <= c < j ==> filled[c] == Some(classes[start + c])
    {
      filled := filled[j := Some(classes[next])];
      next := next + 1;
    }
  }

  /**
   Lines 27-32: allocate a days x periods grid of `None` and write the pool
   into it day by day with a running index, which ends at days * periods.
   */
  method FillGrid(classes: seq<Subject>, days: nat, periods: nat) returns (schedule: Grid, used: nat)
    requires days * periods <= |classes|
    ensures schedule == Layout(classes, days, periods)
    ensures |schedule| == days
    ensures forall i :: 0 <= i < days ==> |schedule[i]| == periods
    ensures used == days * periods
  {
    schedule := seq(days, _ => seq(periods, _ => None));
    used := 0;
    LayoutShape(classes, days, periods);
    for i := 0 to days
      invariant |schedule| == days
      invariant forall r :: 0 <= r < days ==> |schedule[r]| == periods
      invariant used == i * periods
      invariant forall r :: 0 <= r < i ==> schedule[r] == Layout(classes, days, periods)[r]
    {
      LayoutRow(classes, days, periods, i);
      var day;
      day, used := FillDay(schedule[i], classes, used);
      schedule := schedule[i := day];
      MulStep(i + 1, periods);
    }
  }

  /** The shuffled pool: padded with the draws, then permuted. */
  function ShuffledPool(table: HoursTable, slots: nat, draws: seq<Subject>, perm: seq<nat>): (pool: seq<Subject>)
    requires TotalHours(table) + |draws| >= slots
    requires IsPermutation(perm, Max(TotalHours(table), slots))
    ensures |pool| == Max(TotalHours(table), slots)
    ensures multiset(pool) == multiset(Padded(Expand(table), slots, draws))
  {
    var padded := Padded(Expand(table), slots, draws);
    PermuteMultiset(padded, perm);
    Permute(padded, perm)
  }

  /** The timetable that make_schedule returns, for the given random draws and shuffle. */
  function Schedule(table: HoursTable, days: nat, periods: nat, draws: seq<Subject>, perm: seq<nat>): (r: Grid)
    requires TotalHours(table) + |draws| >= days * periods
    requires IsPermutation(perm, Max(TotalHours(table), days * periods))
    ensures |r| == days
    ensures forall i :: 0 <= i < days ==> |r[i]| == periods
  {
    var pool := ShuffledPool(table, days * periods, draws, perm);
    LayoutShape(pool, days, periods);
    Layout(pool, days, periods)
  }

  /**
   Lines 19-33: make_schedule. `draws` are the successive results of
   `random.choice(subjects)` and `perm` the permutation `random.shuffle`
   applies to the padded pool.
   */
  method MakeSchedule(subjects: seq<Subject>, table: HoursTable, days: nat, periods: nat,
                      draws: seq<Subject>, perm: seq<nat>)
    returns (schedule: Grid)
    requires forall k :: 0 <= k < |draws| ==> draws[k] in subjects
    requires TotalHours(table) + |draws| >= days * periods
    requires IsPermutation(perm, Max(TotalHours(table), days * periods))
    ensures schedule == Schedule(table, days, periods, draws, perm)
    ensures |schedule| == days
    ensures forall i :: 0 <= i < days ==> |schedule[i]| == periods
  {
    MulNat(days, periods);
    var totalSlots := days * periods;
    var classes := BuildPool(table);
    classes := Pad(classes, subjects, totalSlots, draws);
    PermuteMultiset(classes, perm);
    classes := Permute(classes, perm);
    var used;
    schedule, used := FillGrid(classes, days, periods);
  }

  /** Day i, period j of the timetable holds entry i * periods + j of the shuffled pool. */
  lemma {:induction false} ScheduleAt(table: HoursTable, days: nat, periods: nat, draws: seq<Subject>, perm: seq<nat>, i: nat, j: nat)
    requires TotalHours(table) + |draws| >= days * periods
    requires IsPermutation(perm, Max(TotalHours(table), days * periods))
    requires i < days && j < periods
    ensures 0 <= i * periods + j < days * periods
    ensures days * periods <= |ShuffledPool(table, days * periods, draws, perm)|
    ensures |Schedule(table, days, periods, draws, perm)| == days
    ensures |Schedule(table, days, periods, draws, perm)[i]| == periods
    ensures Schedule(table, days, periods, draws, perm)[i][j]
            == Some(ShuffledPool(table, days * periods, draws, perm)[i * periods + j])
  {
    MulNat(i, periods);
    LayoutAt(ShuffledPool(table, days * periods, draws, perm), days, periods, i, j);
  }

  /** When the hours fit in the week, every lesson of every subject is placed. */
  lemma {:induction false} QuotaLowerBound(table: HoursTable, days: nat, periods: nat, draws: seq<Subject>, perm: seq<nat>, k: nat)
    requires DistinctKeys(table) && k < |table|
    requires TotalHours(table) <= days * periods
    requires TotalHours(table) + |draws| >= days * periods
    requires IsPermutation(perm, Max(TotalHours(table), days * periods))
    ensures Occurrences(Schedule(table, days, periods, draws, perm), table[k].0) >= table[k].1
  {
    var slots := days * periods;
    var pool := ShuffledPool(table, slots, draws, perm);
    LayoutOccurrences(pool, days, periods, table[k].0);
    assert pool[..slots] == pool;
    PaddedLength(Expand(table), slots, draws);
    ExpandCount(table, k);
  }

  /** When the hours exceed the week, nothing is padded and the surplus is dropped. */
  lemma {:induction false} QuotaUpperBound(table: HoursTable, days: nat, periods: nat, draws: seq<Subject>, perm: seq<nat>, s: Subject)
    requires TotalHours(table) >= days * periods
    requires IsPermutation(perm, TotalHours(table))
    ensures IsPermutation(perm, Max(TotalHours(table), days * periods))
    ensures Occurrences(Schedule(table, days, periods, draws, perm), s) <= multiset(Expand(table))[s]
  {
    var slots := days * periods;
    var pool := ShuffledPool(table, slots, draws, perm);
    assert Schedule(table, days, periods, draws, perm) == Layout(pool, days, periods);
    LayoutOccurrences(pool, days, periods, s);
    PaddedLength(Expand(table), slots, draws);
    assert multiset(pool) == multiset(Expand(table));
    PrefixCount(pool, slots, s);
  }

  /** A prefix holds no more copies of a subject than the whole list. */
  lemma {:induction false} PrefixCount(xs: seq<Subject>, n: nat, s: Subject)
    requires n <= |xs|
    ensures multiset(xs[..n])[s] <= multiset(xs)[s]
  {
    assert xs == xs[..n] + xs[n..];
  }

  /** Over-full week: each subject appears at most its weekly hours, and a subject without hours never. */
  lemma {:induction false} QuotaNotExceeded(table: HoursTable, days: nat, periods: nat, draws: seq<Subject>, perm: seq<nat>, k: nat)
    requires DistinctKeys(table) && k < |table|
    requires TotalHours(table) >= days * periods
    requires IsPermutation(perm, TotalHours(table))
    ensures IsPermutation(perm, Max(TotalHours(table), days * periods))
    ensures Occurrences(Schedule(table, days, periods, draws, perm), table[k].0) <= table[k].1
    ensures forall s :: !IsKey(table, s) ==> Occurrences(Schedule(table, days, periods, draws, perm), s) == 0
  {
    QuotaUpperBound(table, days, periods, draws, perm, table[k].0);
    ExpandCount(table, k);
    forall s | !IsKey(table, s)
      ensures Occurrences(Schedule(table, days, periods, draws, perm), s) == 0
    {
      QuotaUpperBound(table, days, periods, draws, perm, s);
      ExpandAbsent(table, s);
    }
  }

  /** When the hours fill the week exactly, every subject gets exactly its weekly hours. */
  lemma {:induction false} QuotaExact(table: HoursTable, days: nat, periods: nat, draws: seq<Subject>, perm: seq<nat>, k: nat)
    requires DistinctKeys(table) && k < |table|
    requires TotalHours(table) == days * periods
    requires IsPermutation(perm, TotalHours(table))
    ensures IsPermutation(perm, Max(TotalHours(table), days * periods))
    ensures Occurrences(Schedule(table, days, periods, draws, perm), table[k].0) == table[k].1
  {
    QuotaLowerBound(table, days, periods, draws, perm, k);
    QuotaNotExceeded(table, days, periods, draws, perm, k);
  }

  /** Entry k of the shuffled pool is the padded pool's entry perm[k]. */
  lemma {:induction false} ShuffledPoolAt(table: HoursTable, slots: nat, draws: seq<Subject>, perm: seq<nat>, k: nat)
    requires TotalHours(table) + |draws| >= slots
    requires IsPermutation(perm, Max(TotalHours(table), slots))
    requires k < Max(TotalHours(table), slots)
    ensures perm[k] < |Padded(Expand(table), slots, draws)|
    ensures ShuffledPool(table, slots, draws, perm)[k] == Padded(Expand(table), slots, draws)[perm[k]]
  {
    PaddedLength(Expand(table), slots, draws);
  }

  /** Every entry of the shuffled pool is a key of the hours table or one of the draws. */
  lemma {:induction false} PoolMembers(subjects: seq<Subject>, table: HoursTable, slots: nat, draws: seq<Subject>,
                                       perm: seq<nat>, k: nat)
    requires forall k :: 0 <= k < |table| ==> table[k].0 in subjects
    requires forall k :: 0 <= k < |draws| ==> draws[k] in subjects
    requires TotalHours(table) + |draws| >= slots
    requires IsPermutation(perm, Max(TotalHours(table), slots))
    requires k < Max(TotalHours(table), slots)
    ensures |ShuffledPool(table, slots, draws, perm)| == Max(TotalHours(table), slots)
    ensures ShuffledPool(table, slots, draws, perm)[k] in subjects
  {
    ShuffledPoolAt(table, slots, draws, perm, k);
    var classes := Expand(table);
    var q := perm[k];
    if q < |classes| {
      assert Padded(classes, slots, draws)[q] == classes[q];
      ExpandAt(table, q);
    } else {
      assert Padded(classes, slots, draws)[q] == draws[q - |classes|];
    }
  }

  /**
   Every cell is filled, and with a subject from the subject list, provided
   every key of the hours table is in that list (which the input form ensures).
   */
  lemma {:induction false} CellsAreSubjects(subjects: seq<Subject>, table: HoursTable, days: nat, periods: nat,
                                            draws: seq<Subject>, perm: seq<nat>, i: nat, j: nat)
    requires forall k :: 0 <= k < |table| ==> table[k].0 in subjects
    requires forall k :: 0 <= k < |draws| ==> draws[k] in subjects
    requires TotalHours(table) + |draws| >= days * periods
    requires IsPermutation(perm, Max(TotalHours(table), days * periods))
    requires i < days && j < periods
    ensures |Schedule(table, days, periods, draws, perm)| == days
    ensures |Schedule(table, days, periods, draws, perm)[i]| == periods
    ensures Schedule(table, days, periods, draws, perm)[i][j].Some?
    ensures Schedule(table, days, periods, draws, perm)[i][j].value in subjects
  {
    ScheduleAt(table, days, periods, draws, perm, i, j);
    MulNat(i, periods);
    PoolMembers(subjects, table, days * periods, draws, perm, i * periods + j);
  }

  /** Python indexes every row up to the width of the first, so no row may be narrower. */
  predicate WideEnough(schedule: Grid) {
    forall i :: 0 <= i < |schedule| ==> |schedule[i]| >= |schedule[0]|
  }

  function Width(schedule: Grid): nat {
    if schedule == [] then 0 else |schedule[0]|
  }

  /** Some day holds the same cell value in two consecutive periods (within the first row's width). */
  predicate HasAdjacentRepeat(schedule: Grid)
    requires WideEnough(schedule)
    ensures HasAdjacentRepeat(schedule) ==> |schedule| >= 1 && Width(schedule) >= 2
  {
    exists i, j :: 0 <= i < |schedule| && 0 <= j && j + 1 < Width(schedule) && schedule[i][j] == schedule[i][j + 1]
  }

  /** Lines 35-40: valid. It returns false at the first repeat within a day and true otherwise. */
  method Valid(schedule: Grid) returns (ok: bool)
    requires WideEnough(schedule)
    ensures ok <==> !HasAdjacentRepeat(schedule)
  {
    for i := 0 to |schedule|
      invariant forall r, c :: 0 <= r < i && 0 <= c && c + 1 < Width(schedule) ==> schedule[r][c] != schedule[r][c + 1]
    {
      var j := 0;
      while j + 1 < |schedule[0]|
        invariant 0 <= j && (j == 0 || j + 1 <= |schedule[0]|)
        invariant forall c :: 0 <= c < j ==> schedule[i][c] != schedule[i][c + 1]
      {
        if schedule[i][j] == schedule[i][j + 1] {
          return false;
        }
        j := j + 1;
      }
    }
    return true;
  }

  /** Pool entries k and k + 1 are equal although k + 1 does not start a new day. */
  predicate PoolRepeatWithinDay(classes: seq<Subject>, slots: nat, periods: nat)
    requires periods >= 1 && slots <= |classes|
  {
    exists k :: 0 <= k && k + 1 < slots && (k + 1) % periods != 0 && classes[k] == classes[k + 1]
  }

  /** Entries of period j and j + 1 of day i lie within one day of the pool. */
  lemma {:induction false} NeighboursWithinDay(days: nat, periods: nat, i: nat, j: nat)
    requires periods >= 1
    requires i < days && j + 1 < periods
    ensures i * periods + j + 1 < days * periods
    ensures (i * periods + j + 1) % periods != 0
  {
    MulLess(i, days, periods);
    SlotDivMod(i * periods + j + 1, periods, i, j + 1);
  }

  /** Pool entries k and k + 1 within one day are periods k % periods and k % periods + 1 of day k / periods. */
  lemma {:induction false} DayOfNeighbours(days: nat, periods: nat, k: nat) returns (i: nat, j: nat)
    requires periods >= 1
    requires k + 1 < days * periods && (k + 1) % periods != 0
    ensures i == k / periods && j == k % periods
    ensures i < days && j + 1 < periods
    ensures k == i * periods + j
  {
    assert k / periods >= 0;
    i, j := k / periods, k % periods;
    assert k == i * periods + j;
    if j + 1 == periods {
      MulStep(i + 1, periods);
      SlotDivMod(k + 1, periods, i + 1, 0);
      assert false;
    }
    if i >= days {
      MulMono(days, i, periods);
      assert false;
    }
  }

  lemma {:induction false} LayoutWide(classes: seq<Subject>, days: nat, periods: nat)
    requires days * periods <= |classes|
    ensures |Layout(classes, days, periods)| == days
    ensures WideEnough(Layout(classes, days, periods))
    ensures Width(Layout(classes, days, periods)) == if days == 0 then 0 else periods
  {
    LayoutShape(classes, days, periods);
  }

  lemma {:induction false} GridRepeatInPool(classes: seq<Subject>, days: nat, periods: nat)
    requires periods >= 1 && days * periods <= |classes|
    ensures WideEnough(Layout(classes, days, periods))
    ensures HasAdjacentRepeat(Layout(classes, days, periods)) ==> PoolRepeatWithinDay(classes, days * periods, periods)
  {
    LayoutWide(classes, days, periods);
    var g := Layout(classes, days, periods);
    if HasAdjacentRepeat(g) {
      var i, j :| 0 <= i < |g| && 0 <= j && j + 1 < Width(g) && g[i][j] == g[i][j + 1];
      CellRepeatInPool(classes, days, periods, i, j);
    }
  }

  /** Equal cells j and j + 1 of day i are equal pool entries within one day. */
  lemma {:induction false} CellRepeatInPool(classes: seq<Subject>, days: nat, periods: nat, i: nat, j: nat)
    requires periods >= 1 && days * periods <= |classes|
    requires i < days && WideEnough(Layout(classes, days, periods)) && j + 1 < Width(Layout(classes, days, periods))
    requires Layout(classes, days, periods)[i][j] == Layout(classes, days, periods)[i][j + 1]
    ensures PoolRepeatWithinDay(classes, days * periods, periods)
  {
    LayoutWide(classes, days, periods);
    LayoutAt(classes, days, periods, i, j);
    LayoutAt(classes, days, periods, i, j + 1);
    NeighboursWithinDay(days, periods, i, j);
    var k := i * periods + j;
    assert k + 1 == i * periods + (j + 1);
    assert 0 <= k && k + 1 < days * periods && (k + 1) % periods != 0 && classes[k] == classes[k + 1];
  }

  lemma {:induction false} PoolRepeatInGrid(classes: seq<Subject>, days: nat, periods: nat)
    requires periods >= 1 && days * periods <= |classes|
    ensures WideEnough(Layout(classes, days, periods))
    ensures PoolRepeatWithinDay(classes, days * periods, periods) ==> HasAdjacentRepeat(Layout(classes, days, periods))
  {
    LayoutWide(classes, days, periods);
    var g := Layout(classes, days, periods);
    if PoolRepeatWithinDay(classes, days * periods, periods) {
      var k :| 0 <= k && k + 1 < days * periods && (k + 1) % periods != 0 && classes[k] == classes[k + 1];
      var i, j := DayOfNeighbours(days, periods, k);
      LayoutAt(classes, days, periods, i, j);
      LayoutAt(classes, days, periods, i, j + 1);
      assert 0 <= i < |g| && j + 1 < Width(g) && g[i][j] == g[i][j + 1];
    }
  }

  /**
   On a laid-out pool, valid looks only at neighbours within a day: pool
   entries k and k + 1 are compared exactly when k + 1 starts no new day.
   */
  lemma {:induction false} LayoutRepeatIff(classes: seq<Subject>, days: nat, periods: nat)
    requires periods >= 1
    requires days * periods <= |classes|
    ensures WideEnough(Layout(classes, days, periods))
    ensures HasAdjacentRepeat(Layout(classes, days, periods)) <==> PoolRepeatWithinDay(classes, days * periods, periods)
  {
    GridRepeatInPool(classes, days, periods);
    PoolRepeatInGrid(classes, days, periods);
  }

  /** Period j of day i is the pool's entry i * periods + j, and only that day and period give it. */
  lemma {:induction false} SlotDivMod(k: nat, periods: nat, i: nat, j: nat)
    requires periods >= 1
    requires k == i * periods + j && j < periods
    ensures i == k / periods && j == k % periods
  {
    var q, r := k / periods, k % periods;
    assert k == q * periods + r && 0 <= r < periods;
    if q < i {
      MulMono(q + 1, i, periods);
      assert false;
    }
    if q > i {
      MulMono(i + 1, q, periods);
      assert false;
    }
  }

  lemma {:induction false} MulMono(a: nat, b: nat, periods: nat)
    requires a <= b
    ensures a * periods <= b * periods
  {
  }

  /** A grid whose first row has at most one period gives the inner loop nothing to compare. */
  lemma {:induction false} NarrowGridValid(schedule: Grid)
    requires WideEnough(schedule) && Width(schedule) <= 1
    ensures !HasAdjacentRepeat(schedule)
  {
  }

  /** With one period per day there is nothing to compare, so every such schedule is valid. */
  lemma {:induction false} SinglePeriodValid(table: HoursTable, days: nat, draws: seq<Subject>, perm: seq<nat>)
    requires TotalHours(table) + |draws| >= days
    requires IsPermutation(perm, Max(TotalHours(table), days))
    ensures WideEnough(Schedule(table, days, 1, draws, perm))
    ensures !HasAdjacentRepeat(Schedule(table, days, 1, draws, perm))
  {
    LayoutShape(ShuffledPool(table, days, draws, perm), days, 1);
    NarrowGridValid(Schedule(table, days, 1, draws, perm));
  }

  /** A repeat across the boundary between two days is not a violation. */
  lemma {:induction false} DayBoundaryNotChecked()
    ensures Layout(["A", "B", "B", "A"], 2, 2) == [[Some("A"), Some("B")], [Some("B"), Some("A")]]
    ensures WideEnough(Layout(["A", "B", "B", "A"], 2, 2))
    ensures !HasAdjacentRepeat(Layout(["A", "B", "B", "A"], 2, 2))
  {
    var classes: seq<Subject> := ["A", "B", "B", "A"];
    var rest := classes[2..];
    assert classes[..2] == ["A", "B"] && rest[..2] == ["B", "A"] && rest[2..] == [];
    assert FilledRow(["A", "B"]) == [Some("A"), Some("B")];
    assert FilledRow(["B", "A"]) == [Some("B"), Some("A")];
    assert Layout(rest, 1, 2) == [[Some("B"), Some("A")]] + Layout(rest[2..], 0, 2);
    assert Layout(classes, 2, 2) == [[Some("A"), Some("B")]] + Layout(rest, 1, 2);
  }

  lemma {:induction false} ScheduleWide(table: HoursTable, days: nat, periods: nat, draws: seq<Subject>, perm: seq<nat>)
    requires TotalHours(table) + |draws| >= days * periods
    requires IsPermutation(perm, Max(TotalHours(table), days * periods))
    ensures WideEnough(Schedule(table, days, periods, draws, perm))
    ensures Width(Schedule(table, days, periods, draws, perm)) == if days == 0 then 0 else periods
  {
    LayoutWide(ShuffledPool(table, days * periods, draws, perm), days, periods);
  }

  /**
   With a single subject and at least two periods a day, no timetable is
   valid, so the regenerate-until-valid loop of the caller never ends.
   */
  lemma {:induction false} SingleSubjectNeverValid(s: Subject, table: HoursTable, days: nat, periods: nat,
                                                   draws: seq<Subject>, perm: seq<nat>)
    requires forall k :: 0 <= k < |table| ==> table[k].0 == s
    requires forall k :: 0 <= k < |draws| ==> draws[k] == s
    requires days >= 1 && periods >= 2
    requires TotalHours(table) + |draws| >= days * periods
    requires IsPermutation(perm, Max(TotalHours(table), days * periods))
    ensures WideEnough(Schedule(table, days, periods, draws, perm))
    ensures HasAdjacentRepeat(Schedule(table, days, periods, draws, perm))
  {
    var g := Schedule(table, days, periods, draws, perm);
    ScheduleWide(table, days, periods, draws, perm);
    CellsAreSubjects([s], table, days, periods, draws, perm, 0, 0);
    CellsAreSubjects([s], table, days, periods, draws, perm, 0, 1);
    assert g[0][0] == g[0][1];
  }

  /** Padding can give a subject more lessons than its weekly hours. */
  lemma {:induction false} PaddingExceedsHours()
    ensures Occurrences(Schedule([("A", 1)], 1, 2, ["A"], [0, 1]), "A") == 2
  {
    var table: HoursTable := [("A", 1)];
    assert table[..0] == [];
    assert Expand(table) == ["A"];
    var pool: seq<Subject> := ["A", "A"];
    assert Padded(["A"], 2, ["A"]) == pool;
    assert Permute(pool, [0, 1]) == pool;
    LayoutOccurrences(pool, 1, 2, "A");
    assert pool[..2] == pool;
  }
}
