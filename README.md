# Mini timetable generator: a Dafny model

This project models the two functions that carry the logic of the timetable
generator in `app.py`.

`make_schedule(subjects, hours_per_subject, days, periods)` builds a timetable in four steps:

1. It builds a class pool that holds each subject as many times as its weekly hours, in the table's order.
2. It tops the pool up with randomly chosen subjects until the pool has at least `days * periods` entries.
3. It shuffles the pool.
4. It writes the pool into a `days x periods` grid, row by row.

`valid(schedule)` rejects a grid in which some day has the same subject in two consecutive periods.

Two modules make up the model:

- `ClassPool` (`pool.dfy`) covers the pool: expansion, padding and shuffling.
- `Timetable` (`timetable.dfy`) covers the grid: filling it, the timetable that results, and the validity check.

The parts of the source that change state in steps are methods with loops, proved against specification functions:

- `BuildPool` and `Pad` are proved against `Expand` and `Padded`.
- `FillDay` and `FillGrid` are proved against `FilledRow` and `Layout`.
- `MakeSchedule` is proved against `Schedule`.
- `Valid` is proved against `HasAdjacentRepeat`.

The properties of the generator are lemmas about these functions.

Randomness is passed in by the caller:

- `draws` is the sequence of results of the successive `random.choice(subjects)` calls.
- `perm` is the permutation that `random.shuffle` applies. Position `k` of the shuffled pool holds the entry that was at position `perm[k]`.

Every theorem therefore holds for every outcome of the random calls.

The hours table is a Python dictionary, iterated in insertion order. It is modelled as a sequence of `(subject, hours)` pairs. The per-key counting lemmas require `DistinctKeys`, which every dictionary satisfies.

Grid cells are `Option<Subject>`. `None` is the placeholder the source writes into the fresh grid before filling it.

Three consequences of the way `make_schedule` builds the timetable are proved:

- Padding can give a subject more lessons than its weekly hours (`PaddingExceedsHours`).
- No cell of the grid is left empty (`CellsAreSubjects`).
- Lessons beyond the first `days * periods` entries of the shuffled pool are never placed (`LayoutOccurrences`, `QuotaUpperBound`).

## Model

| member | source | states |
|---|---|---|
| ClassPool.Repeat | app.py:23 | `[subject] * hours` has length `hours` and holds `hours` copies of `subject` and nothing else |
| ClassPool.Expand | app.py:21-23 | the pool the item loop builds, as a function: each entry's `[subject] * hours` block in table order, of length the total of the hours |
| ClassPool.ExpandAppend | app.py:21-23 | expanding two tables one after the other gives the concatenation of their pools, and the hours add up |
| ClassPool.ExpandBlock | app.py:21-23 | the lessons of each table entry occupy one consecutive block of the pool, which starts after the hours of all earlier entries |
| ClassPool.ExpandCount | app.py:21-23 | with distinct keys, the pool holds every subject exactly as often as its weekly hours |
| ClassPool.ExpandAbsent | app.py:21-23 | a subject that is not a key of the table never occurs in the pool |
| ClassPool.ExpandAt | app.py:21-23 | every entry of the pool is a key of the hours table |
| ClassPool.BuildPool | app.py:21-23 | the loop over the table's items builds exactly the expanded pool, whose length is the total of the hours |
| ClassPool.Pad | app.py:24-25 | the padding loop keeps the pool as a prefix. It appends the next draws until the pool reaches `total_slots`, so the length becomes `max(len(classes), total_slots)`, and every appended entry is one of the subjects |
| ClassPool.Padded | app.py:24-25 | the pool topped up with the first draws: length `max(len(classes), total_slots)`, with the unpadded pool as its prefix |
| ClassPool.PaddedLength | app.py:24-25 | padding is the identity when the pool already fills the week, and it only adds entries, as a multiset |
| ClassPool.Permute | app.py:26 | the shuffled list, whose position k holds the entry `perm[k]` of the input; it has one entry per position of the permutation |
| ClassPool.DropLast | app.py:26 | in a permutation of n + 1 positions, the position holding n can be removed, which leaves a permutation of n positions |
| ClassPool.PermuteMultiset | app.py:26 | applying a permutation keeps the length and the multiset of the pool |
| Timetable.FilledRowCount | app.py:31 | a filled day holds `Some(s)` exactly as often as its pool entries hold `s`, and holds no `None` |
| Timetable.Layout | app.py:27-32 | the row-major grid of the pool, one row of `periods` cells per day; it has `days` rows |
| Timetable.LayoutShape | app.py:27 | the grid has `days` rows of `periods` cells each |
| Timetable.LayoutRow | app.py:29-32 | day i is filled from pool entries `i * periods` up to `i * periods + periods` |
| Timetable.LayoutAt | app.py:28-32 | day i, period j holds pool entry `i * periods + j`, which is below `days * periods` |
| Timetable.LayoutOccurrences | app.py:27-32 | the grid holds each subject exactly as often as the first `days * periods` pool entries do |
| Timetable.FillDay | app.py:30-32 | the inner loop writes the next `len(row)` pool entries into one day, and the running index advances by that many |
| Timetable.FillGrid | app.py:27-32 | filling the fresh `None` grid with the running index gives the row-major layout of the pool, and the index ends at `days * periods` |
| Timetable.ShuffledPool | app.py:24-26 | the padded and shuffled pool has length `max(total hours, total_slots)` and the same multiset as the padded pool |
| Timetable.Schedule | app.py:19-33 | the timetable `make_schedule` returns for given draws and shuffle: the layout of the shuffled pool, with `days` rows of `periods` cells |
| Timetable.MakeSchedule | app.py:19-33 | `make_schedule` returns the layout of the padded, shuffled pool, as `days` rows of `periods` cells |
| Timetable.ScheduleAt | app.py:27-32 | day i, period j of the timetable holds entry `i * periods + j` of the shuffled pool |
| Timetable.QuotaLowerBound | app.py:21-32 | when the hours fit in the week, every subject gets at least its weekly hours |
| Timetable.QuotaUpperBound | app.py:24-32 | when the hours fill or exceed the week, no subject appears more often than in the unpadded pool, so random padding contributes nothing |
| Timetable.QuotaNotExceeded | app.py:21-32 | when the hours fill or exceed the week, each subject appears at most its weekly hours, and a subject without an entry never appears |
| Timetable.QuotaExact | app.py:21-32 | when the hours equal the number of slots, every subject appears exactly its weekly hours, whatever the draws |
| Timetable.PoolMembers | app.py:22-26 | if every key of the hours table is a subject, then every entry of the shuffled pool is one of the subjects |
| Timetable.CellsAreSubjects | app.py:14-32 | every cell of the timetable is filled, and with a subject of the subject list, whose hours table the input form builds from that list |
| Timetable.HasAdjacentRepeat | app.py:35-40 | the condition under which `valid` returns false: some day holds equal cells in periods j and j + 1 below the first row's width, which needs at least one day and two periods |
| Timetable.Valid | app.py:35-40 | `valid` returns true exactly when no day holds equal values in periods j and j + 1, with j taken below the width of the first row |
| Timetable.GridRepeatInPool | app.py:35-40 | a repeat in the laid-out grid comes from equal pool entries k and k + 1 in which k + 1 does not start a new day |
| Timetable.PoolRepeatInGrid | app.py:35-40 | equal pool entries k and k + 1 within one day always give a repeat in the grid |
| Timetable.LayoutRepeatIff | app.py:35-40 | a laid-out grid fails `valid` if and only if the pool has equal neighbours k, k + 1 that are not separated by a day boundary |
| Timetable.NarrowGridValid | app.py:37 | a grid whose first row has at most one period is valid, because the inner loop has nothing to compare |
| Timetable.SinglePeriodValid | app.py:37 | with one period a day the inner loop has nothing to compare, so every generated timetable is valid |
| Timetable.DayBoundaryNotChecked | app.py:36-38 | for example, `A B / B A` is valid although `B` ends day 1 and starts day 2. The general fact is `LayoutRepeatIff`: pool entries k and k + 1 with `(k + 1) % periods == 0` are never compared |
| Timetable.ScheduleWide | app.py:27 | every generated timetable is rectangular, so `valid` may index every row up to the first row's width |
| Timetable.SingleSubjectNeverValid | app.py:35-40 | when every key and every draw is the same subject and a day has two or more periods, no generated timetable is valid, so the regenerate-until-valid loop of the caller never ends |
| Timetable.PaddingExceedsHours | app.py:24-25 | padding can give a subject more lessons than its weekly hours, as with one hour of one subject in two slots |

## Left out

- The Streamlit user interface is not modelled: the text and number inputs (lines 1-16), the button (line 43) and the display of the result (lines 48-50). All of them are presentation.
- The regenerate-until-valid loop (lines 45-46) is not modelled as a loop. It calls the two modelled functions. `SingleSubjectNeverValid` states the case in which it never ends.
- The internals of `random.choice` and `random.shuffle` are not modelled. Their results are the parameters `draws` and `perm`. Every permutation and every sequence of draws from `subjects` is allowed, and the probability distribution is not modelled.
- Pad: requires enough draws to fill the week, which stands for the unbounded stream of `random.choice` results. The same precondition carries over to `MakeSchedule` and `Schedule`. With an empty `subjects` and a pool shorter than the week, `random.choice` raises `IndexError`. The model has no draws then, so it requires the hours to fill the week. The app never reaches this case, because the `split` on line 11 always yields at least one subject.
- Valid: requires every row to be at least as long as the first row. On a row narrower than the first, Python raises `IndexError` when the inner loop reaches a missing period, unless it has already returned False on an earlier repeat. Neither case is modelled. Every timetable `make_schedule` returns meets the requirement (`ScheduleWide`).
- BuildPool: weekly hours are natural numbers. A negative count, which `[subject] * hours` would turn into an empty list, is excluded by the input form (line 16), which accepts 1 to 10.
- Subjects are Dafny strings compared by value. Unicode normalisation and the `strip` and `split` of line 11 are not modelled.
- FillGrid: the grid is written one row value at a time rather than cell by cell in place. The rows of the comprehension on line 27 are distinct lists, so no aliasing is lost.
