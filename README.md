# Antenna placement: scoring, antenna orderings and input records

This project models in Dafny the three pieces of logic in `main.py` of a
solver for an antenna-placement puzzle. Buildings have a position, a
load and a connectivity. Antennas have a range and a connection speed.

- **Score** (`compute_score`). Building `i` contributes to antenna `j`
  placed at the point `(Xa, Ya)`: its connectivity times the antenna's
  speed, minus its load times the Manhattan distance from the building
  to the point. The result is not clamped and may be negative.
- **Antenna orderings** (`sort_antennas_by_connection_speed`,
  `sort_antennas_by_range`). Each is Python's `sorted(..., reverse=True)`
  keyed on one field. It returns a new list holding the same records, by
  non-increasing key, with equal keys in their input order.
- **Input records** (`read_input_file`, over lines already in memory).
  The first line gives the grid size, the second gives `N M R`. Then
  come `N` building lines `Bx By Bl Bc` and `M` antenna lines `Ar Ac`.
  Record `k` of each block is line `k`'s integers with `k` appended.

Records stay what they are in the source: integer lists (`Record =
seq<int>`). A building is `[Bx, By, Bl, Bc, index]` and an antenna is
`[Ar, Ac, index]`. Python subscripts keep their meaning. A negative index
counts from the end, and anything outside the list raises `IndexError`.
A missing sort key raises `IndexError` too. A line that does not parse,
a header with the wrong number of values, or a read past the end of the
file raises `ValueError`.

Modules: `Errors` (Option, Result, the exceptions), `Records` (Python
subscripts, field accessors), `Geometry` (the distance), `Scoring`,
`Sorting` and `Reading`.

Defects in the source:

- The count checks of `read_input_file` build an `Exception` and never
  raise it. The condition can hold: `range(n)` of a negative count `n`
  runs zero times, so `len(buildings) != n` holds, yet reading
  carries on. The record lists have length `max(n, 0)`, not always `n`.
  See "## Findings".
- `manhattandistance` is called at main.py:67 but is not defined in the
  file. The model takes it to be `|x1 - x2| + |y1 - y2|`.
- main.py:66 ends in a bare `-` with no parentheses, so the file does not
  parse as written. The model uses the evident expression, spread over
  lines 66-67.

## Model

| member | source | states |
|---|---|---|
| `Geometry.ManhattanDistance` | main.py:67 | the distance is a natural number, and it is zero exactly when the two points coincide |
| `Geometry.DistanceSymmetric` | main.py:67 | the distance from a building to a point equals the distance from the point to the building |
| `Geometry.TriangleInequality` | main.py:67 | going through an intermediate point is never shorter |
| `Scoring.ComputeScore` | main.py:65-68 | raises `IndexError` exactly when a subscript is outside Python's range (negative indices allowed) or a record lacks a field it reads; otherwise returns `Bc*Ac - Bl*distance((Bx,By),(Xa,Ya))` of the subscripted building and antenna, unclamped |
| `Scoring.ScoreAtOwnSite` | main.py:66-67 | at the building's own position the score is exactly `Bc*Ac` |
| `Scoring.OwnSiteScoresBest` | main.py:66-67 | with a non-negative load, no point scores above the building's own position; with a positive load every other point scores strictly below it |
| `Scoring.ScoreChangeBounded` | main.py:66-67 | for every load, moving the placement point changes the score by at most the absolute load times the distance moved |
| `Scoring.ScoreCanBeNegative` | main.py:65-68 | a far-away placement gives a negative score (-11 in the example), which is returned as it is |
| `Sorting.Insert` | main.py:72-74 | inserting into a non-increasing list keeps it non-increasing and adds exactly the inserted record |
| `Sorting.InsertGroups` | main.py:72-74 | the inserted record goes in front of the records with its key; other key groups are unchanged |
| `Sorting.SortDescending` | main.py:72-74 | the result is a permutation of the input (same multiset), non-increasing in the key, and for every key value its records keep their input order |
| `Sorting.SortAntennasByConnectionSpeed` | main.py:70-76 | raises `IndexError` exactly when some antenna has no `antenna[1]`; otherwise returns a stable, non-increasing-by-speed permutation of the antennas |
| `Sorting.SortAntennasByRange` | main.py:79-85 | raises `IndexError` exactly when some antenna has no `antenna[0]`; otherwise returns a stable, non-increasing-by-range permutation of the antennas |
| `Sorting.StableDescendingSortUnique` | main.py:72-74 | two lists that are each a stable non-increasing permutation of the same input are equal, so the model returns exactly the list a stable `sorted` returns |
| `Reading.ReadRecords` | main.py:38-41 | succeeds exactly when all `max(count, 0)` lines of the block parse; then it builds one record per line, record `k` being line `start + k`'s integers followed by `k`; otherwise it raises `ValueError` at the first line that does not parse |
| `Reading.ReadInputFile` | main.py:33-55 | succeeds exactly when both header lines unpack and every building and antenna line parses; the result holds the header values and both record blocks, the antenna block starting right after the buildings; on failure it raises `ValueError` at the first bad line in reading order, and never a count error |
| `Reading.ReadsAsUnique` | main.py:37-51 | the lines determine the records read |
| `Reading.IndexIsLastField` | main.py:39-40 | the last field of every record is its 0-based position, so the records of one block are pairwise distinct |
| `Reading.CountCheckFiresOnlyOnNegativeCount` | main.py:42-45 | the mismatch conditions of both count checks hold exactly when the declared count is negative |
| `Reading.NegativeCountIsNotReported` | main.py:42-45 | lines `4 4` and `-1 0 7` are read successfully into no buildings, although their length differs from the declared count |
| `Reading.ReadInputFileChecked` | main.py:42-45 | with the count checks raising, success additionally needs both counts non-negative, the record lists then have exactly the declared lengths, and a negative count raises `CountMismatch` at its check |

## Left out

- Opening the file and `readline` (main.py:31): the input is a sequence of `Line` values, and a read past the end gives a line that does not parse, as `int('')` fails.
- Splitting a line and `int()` of each token: each line is either its integers or `Malformed`.
- `main`, the argument vector and the top-level exception handler (main.py:15-19, main.py:88-92): process plumbing.
- Logging, its set-up and every `logger` call (main.py:8-12, 56-62, 71, 75, 80, 84): no effect on results.
- Width, height and reward are read and returned but used by nothing, so no property concerns them.
- The sorts return new lists and leave their input unchanged. In the model this holds because sequences are values; list aliasing is not modelled.
- Any scoring table over all antennas and sites, reachability by range, and any greedy assignment of antennas to buildings: none of these occur in `main.py`.
- `TypeError` from non-integer record fields cannot arise: records hold only integers.

## Findings

| source | as written | input that shows it | evidently intended | confidence | as-written member | corrected member |
|---|---|---|---|---|---|---|
| main.py:42-45 | `Exception(...)` is built and dropped, never raised; the same holds at main.py:52-55 | second line `-1 0 7`: `range(-1)` is empty, `len(buildings)` is 0, not -1, and reading returns normally | `raise Exception(...)`, so the record lists always have the declared lengths | not executed | `Reading.NegativeCountIsNotReported` | `Reading.ReadInputFileChecked` |
