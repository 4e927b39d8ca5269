# I.DOT dispense planner — a verified Dafny model

`generate_idot.py` turns a reaction design into the ordered list of
transfer records that an I.DOT nanodispenser executes. This project models
the planning core of that script and proves what it computes:

- **Well addressing** (`well_grid.dfy`, module `WellGrid`). The 96-well
  target plate has rows A..H and columns 1..12 and is walked in
  column-major order (A1, B1, …, H1, A2, …). `well_sort_key` turns a well
  name into the key (column, row index).
- **Reaction expansion** (`reactions.dfy`, module `Reactions`).
  Combinatorial mode takes the Cartesian product of the part groups, first
  group varying slowest. It appends the common parts to each combination
  and zips the result with the first target wells. Manual mode checks that
  the list is non-empty and passes it through.
- **Dispense planning** (`dispense.dfy`, module `Dispense`). A pre-flight
  check reports every part missing from the source plate, sorted
  (`name_order.dfy`, module `NameOrder`, models Python's string order and
  `sorted`). Then, reaction by reaction:
  - a volume check;
  - one record per part, drawn from the least-used of that reagent's
    wells, with ties going to the earliest-declared well;
  - a mastermix (filler) record when volume is left over.
- **Worked examples** (`scenarios.dfy`, module `Scenarios`): small designs
  and the results the model gives them.
- `outcomes.dfy` (module `Outcomes`) holds the error values and the
  `Option`/`Result` wrappers.

Volumes are integers in units of 0.0001 µL. The filler volume
`total - n * d` is then exact, and the script's `round(…, 4)` is the
identity. How the script's exceptions are modelled:

- Each `raise ValueError` in the planning functions is an `Err` value
  carrying the fields its message reports.
- A failure of `well_sort_key` (`IndexError` on an empty name, `ValueError`
  from `int` or `index`) is `None` of an `Option`.
- `min` of an empty well list is `NoSourceWells(reagent)`. It also records
  the reagent, which the message of `min` does not name.

The plate constants `ROWS_96 = "ABCDEFGH"` and `COLS_96 = range(1, 13)`
(generate_idot.py:25-26) are `WellGrid.RowLetters` and the column bounds
`WellGrid.FirstColumn` (1) and `WellGrid.LastColumn` (12).

How the planner is modelled:

- `Dispense.BuildDispenseRows` is a method. It runs the pre-flight check
  and then calls `Dispense.PlanRows`, which holds the script's nested loops.
  - The `for` loops of `PlanRows` mutate a `map<string, nat>` usage counter and a list of
    rows, and it returns early on every error.
  - The loops are proved against `PlanReactions` and `PlanParts`. These
    functions take one loop turn per element.
  - Those functions are in turn proved equal to an independent reference.
    `Sources` draws load-balanced sources over the flat list of all part
    names. `Layout` places one block of records per reaction.
- The shape lemmas read off that reference: record order, wells, volumes,
  record count, round-robin drawing.

The model follows what generate_idot.py does in these cases:

- Manual mode does not reject a reaction with an empty part list. The code
  (generate_idot.py:164-166) only checks that the list of reactions is
  non-empty.
- A reagent declared with no wells is not ruled out by the code. `min` of
  an empty list raises `ValueError` (generate_idot.py:200). The model
  returns it as `NoSourceWells`.
- Duplicate target wells are not rejected in manual mode. Their records
  simply follow one another in reaction order.

## Model

| member | source | states |
|---|---|---|
| `WellGrid.ParseColumn` | generate_idot.py:31 | `int(well[1:])`, restricted to ASCII digit strings: it succeeds exactly on a non-empty string of ASCII decimal digits (see Left out for the other forms `int` accepts) |
| `WellGrid.UpperAscii` | generate_idot.py:30 | `row.upper()` on one character: a lower-case ASCII letter becomes its capital, every other character is unchanged |
| `WellGrid.IndexOf` | generate_idot.py:32 | `ROWS_96.index(row)` gives the first position holding the letter, or fails when no position holds it |
| `WellGrid.WellSortKey` | generate_idot.py:29-32 | a key `(c, r)` exists only for a non-empty name whose upper-cased first letter is row letter `r` and whose rest parses to column `c`; conversely every non-empty name whose upper-cased first letter is in A..H and whose rest parses gets a key; every other name raises |
| `WellGrid.WellName` | generate_idot.py:37 | `f"{r}{c}"` is the row letter followed by a digit string that reads back as column `c` |
| `WellGrid.PrefixSlice` | generate_idot.py:42 | `wells[:count]` is a prefix of the list: `count` entries when `0 <= count <= len`, the whole list for a larger count, and `len + count` entries (at least none) for a negative count |
| `WellGrid.Decimal` | generate_idot.py:37 | `str(c)` is a non-empty digit string with no leading zero |
| `WellGrid.GenerateTargetWells` | generate_idot.py:35-42 | fails with a capacity error of 96 exactly when `count > 96`; for `0 <= count <= 96` returns exactly `count` wells; a negative count follows Python's `wells[:count]`; well `i` is row `i % 8` of column `i / 8 + 1` |
| `WellGrid.ColumnWells` | generate_idot.py:25-37 | (definition, no contract) the inner `for r in ROWS_96` for one column: the eight wells A..H of that column; `WellsFromAt` states what it lists |
| `WellGrid.WellsFrom` | generate_idot.py:26-37 | (definition, no contract) the comprehension `[f"{r}{c}" for c in COLS_96 for r in ROWS_96]` from a given column up to column 12 |
| `WellGrid.AllWells` | generate_idot.py:25-37 | (definition, no contract) the list `wells` of generate_target_wells, starting at column 1; `AllWellsColumnMajor` states what it lists |
| `WellGrid.WellsFromAt` | generate_idot.py:37 | the comprehension from a column on lists 8 wells per column, row letter cycling fastest |
| `WellGrid.AllWellsColumnMajor` | generate_idot.py:25-37 | the full comprehension has 96 wells, well `i` in row `i % 8` of column `i / 8 + 1` |
| `WellGrid.DecimalRoundTrip` | generate_idot.py:31-37 | parsing the digits that `str` writes gives back the column number |
| `WellGrid.SortKeyOfWellName` | generate_idot.py:29-37 | the sort key of a generated well name is its (column, row index) |
| `WellGrid.TargetWellsOrdered` | generate_idot.py:29-42 | generated target wells have strictly increasing sort keys, so they are pairwise distinct and already in display order |
| `Reactions.Product` | generate_idot.py:151 | (definition, no contract) `itertools.product(*groups)`, built group by group, first group varying slowest; `ProductSize`, `ProductMember` and `ProductAt` state what it computes |
| `Reactions.CombinationCount` | generate_idot.py:151 | the number of combinations is zero exactly when some group is empty |
| `Reactions.ProductSize` | generate_idot.py:151 | the product has one entry per combination: the product of the group sizes |
| `Reactions.ProductMember` | generate_idot.py:151 | a list is in the product exactly when it has one part per group, taken from that group |
| `Reactions.ProductAt` | generate_idot.py:151 | entry `i` of the product is the `i`-th combination in lexicographic order: the part of group `k` is digit `k` of `i` in the mixed radix of the group sizes, first group most significant |
| `Reactions.PrefixEachAt` | generate_idot.py:151 | prefixing every tail by every choice puts choice `q` with tail `r` at position `q` times the number of tails plus `r` (first group varies slowest) |
| `Reactions.ZipReactions` | generate_idot.py:154-157 | the append loop over `zip` gives one reaction per pair, up to the shorter list: target `j` with combination `j` followed by the common parts |
| `Reactions.BuildCombinatorialReactions` | generate_idot.py:140-158 | no groups fail; more than 96 combinations fail with a capacity error; otherwise reaction `i` goes to well `i` of column-major order with the `i`-th combination followed by the common parts, one reaction per combination |
| `Reactions.BuildManualReactions` | generate_idot.py:161-166 | fails exactly on an empty list and otherwise returns its input unchanged |
| `NameOrder.Less` | generate_idot.py:193 | (definition, no contract) Python's `<` on `str`: compare code points from the front, a proper prefix first; the four lemmas below state that it is a strict total order |
| `NameOrder.LessIrreflexive` | generate_idot.py:193 | no string sorts before itself |
| `NameOrder.LessTransitive` | generate_idot.py:193 | Python's string order is transitive |
| `NameOrder.LessTotal` | generate_idot.py:193 | any two different strings are ordered one way or the other |
| `NameOrder.LessAsymmetric` | generate_idot.py:193 | two strings are never ordered both ways |
| `NameOrder.Insert` | generate_idot.py:193 | inserting a new name into a strictly sorted list keeps it strictly sorted and adds exactly that name |
| `NameOrder.SortNames` | generate_idot.py:193 | `sorted` of a set lists every element once, in strictly ascending order |
| `NameOrder.SortedHead` | generate_idot.py:193 | the head of a strictly sorted list sorts before every other element |
| `NameOrder.StrictlySortedUnique` | generate_idot.py:193 | two strictly sorted lists with the same elements are equal, so the missing-reagent report is unique |
| `Dispense.LeastUsedIndex` | generate_idot.py:200 | `min(wells, key=usage)` picks a position whose usage is minimal, with every earlier position strictly more used |
| `Dispense.LeastUsedIsFirst` | generate_idot.py:200 | the well at that position is the first least-used well |
| `Dispense.PickSourceWell` | generate_idot.py:198-202 | fails exactly when the reagent has no wells; otherwise returns the first least-used well and raises its count by exactly one, every other count unchanged |
| `Dispense.SingleWellAlwaysChosen` | generate_idot.py:198-202 | a reagent with a single well is always drawn from that well |
| `Dispense.CollectParts` | generate_idot.py:185-187 | `all_parts` holds exactly the part names some reaction uses |
| `Dispense.NoneMissing` | generate_idot.py:189-194 | no part is missing exactly when every part of every reaction is a key of the reagent map |
| `Dispense.MissingParts` | generate_idot.py:189 | (definition, no contract) `all_parts - reagent_to_wells.keys()`: the part names some reaction uses that are not on the source plate; `NoneMissing` states when it is empty |
| `Dispense.Uses` | generate_idot.py:200-201 | (definition, no contract) `well_usage.get(w, 0)`: the count of `w`, zero for a well not yet drawn from |
| `Dispense.Bump` | generate_idot.py:201 | one more draw from `w`: its count goes up by one, every other count is unchanged, and `w` becomes a key |
| `Dispense.Filler` | generate_idot.py:207 | (definition, no contract) the mastermix volume `total_vol - n_parts * dispense_vol`; `PlanReactionOk` and `FillerRecordAt` state how it is used |
| `Dispense.PlanParts` | generate_idot.py:214-216 | (definition, no contract) the inner loop `for part in parts` from a given state, one turn per part; `PlanPartsDraw`, `PlanPartsFails` and `PlanPartsOk` state what it computes |
| `Dispense.PlanReaction` | generate_idot.py:205-219 | (definition, no contract) one turn of the outer loop: the volume check, the inner loop, then the filler record when volume is left over; `PlanReactionOk` states what it computes |
| `Dispense.PlanReactions` | generate_idot.py:204-219 | (definition, no contract) the outer loop `for target, parts in reactions` from a given state, stopping at the first error; `PlanReactionsOutcome` states what it computes |
| `Dispense.BuildDispenseRows` | generate_idot.py:171-221 | missing parts fail with all of them reported, sorted; otherwise the run fails exactly when some reaction fails, with that first failing reaction's error; a successful run is the reference layout of the load-balanced draws |
| `Dispense.PlanRows` | generate_idot.py:204-219 | the nested loops with their early exits compute the outer-loop function from the empty state |
| `Dispense.PlanPartsDraw` | generate_idot.py:198-202 | one turn of the inner loop fails exactly when the part has no well; otherwise it appends the record `(w, target, d, part)` where `w` is the part's first least-used well, whose count goes up by one while every other count stays |
| `Dispense.PartsErrPersists` | generate_idot.py:214-216 | once some part fails, the inner loop ends with that error |
| `Dispense.PlanErrPersists` | generate_idot.py:205-219 | once some reaction fails, the whole run ends with that error and no rows |
| `Dispense.FirstUndrawable` | generate_idot.py:214-215 | the first part whose reagent has no well |
| `Dispense.PlanPartsFails` | generate_idot.py:214-216 | the inner loop fails exactly when some part has no source well, with the error of the first such part |
| `Dispense.PlanPartsOk` | generate_idot.py:214-216 | otherwise it appends one record `(src, target, d, part)` per part, in part order, from the reference draws, and counts those draws |
| `Dispense.PlanReactionOk` | generate_idot.py:205-219 | a reaction with room for its parts appends its part records, then the filler record exactly when volume is left over |
| `Dispense.PlanReactionsOutcome` | generate_idot.py:204-221 | from any state: fails exactly when some reaction fails, at the first one (volume before wells); otherwise appends the reference layout and the reference usage |
| `Dispense.OutcomeEarlierFails` | generate_idot.py:204-221 | a failure before the last reaction is the run's failure |
| `Dispense.OutcomeLastFails` | generate_idot.py:205-216 | a failure at the last reaction, after none before, is the run's failure |
| `Dispense.OutcomeLastOk` | generate_idot.py:204-221 | with no failure, the last reaction's block follows the layout of the others |
| `Dispense.PlanOutcome` | generate_idot.py:204-221 | the same outcome from the empty state that build_dispense_rows starts in |
| `Dispense.TallyCounts` | generate_idot.py:201 | a well's count is its starting count plus the number of draws from it, so counts never decrease |
| `Dispense.TallyKeys` | generate_idot.py:201 | only wells that were drawn from (or counted at the start) enter the usage map |
| `Dispense.TallyAppend` | generate_idot.py:201 | counting two runs of draws in turn is counting them together |
| `Dispense.SourcesAppend` | generate_idot.py:204-219 | the draws for a list of names split at any point, the second half starting from the counts the first leaves |
| `Dispense.SourcesPrefix` | generate_idot.py:204-219 | the draws for a prefix of the names are the prefix of the draws |
| `Dispense.SourceAt` | generate_idot.py:198-202 | draw `t` takes the first least-used well of its reagent under the counts of draws `0..t-1` |
| `Dispense.SourcesDraw` | generate_idot.py:198-202 | every draw is one of its reagent's declared wells, and the first least-used one |
| `Dispense.FlatPartsAt` | generate_idot.py:205-216 | part `j` of reaction `i` sits right after the parts of the reactions before it in processing order |
| `Dispense.FlatPartsPrefix` | generate_idot.py:205-216 | the parts of the first `k` reactions open the list of all parts |
| `Dispense.LayoutSize` | generate_idot.py:204-221 | the layout has one record per part plus one per filled reaction, block by block |
| `Dispense.LayoutPrefix` | generate_idot.py:204-221 | the records of the first `k` reactions open the layout |
| `Dispense.LayoutBlock` | generate_idot.py:204-221 | reaction `i`'s block follows the blocks of the reactions before it and draws the sources right after theirs |
| `Dispense.PartRecordAt` | generate_idot.py:214-216 | part `j` of reaction `i` is dispensed by record `j` of its block: `(source, target, d, part)` with the source at the part's place in the draws |
| `Dispense.PartSourceDeclared` | generate_idot.py:199-200 | the source drawn for part `j` of reaction `i` is a declared well of that part |
| `Dispense.FillerRecordAt` | generate_idot.py:207-219 | the record after a reaction's parts is `(mm_well, target, total - n*d, mm_name)` exactly when that volume is positive; otherwise the next reaction starts right after the parts |
| `Dispense.RecordCountSum` | generate_idot.py:204-221 | the number of records is the number of parts plus the number of reactions whose filler volume is positive |
| `Dispense.RoundLeast` | generate_idot.py:200 | after `q` rounds over the wells and `r` more draws, the next draw takes well `r` |
| `Dispense.RoundBump` | generate_idot.py:201 | that draw moves the counts to the next round state |
| `Dispense.RoundRobinState` | generate_idot.py:198-202 | after `q * n + r` draws of one reagent with `n` distinct wells, each well is used `q` times and the first `r` once more |
| `Dispense.RoundRobin` | generate_idot.py:198-202 | draw `t` of such a reagent takes well `t % n` |
| `Scenarios.TwoByTwoDesign` | generate_idot.py:151 | groups `[a, b]` and `[x, y]` give `ax, ay, bx, by` |
| `Scenarios.FirstColumnWells` | generate_idot.py:35-42 | four reactions go to A1, B1, C1, D1 |
| `Scenarios.PlateEdges` | generate_idot.py:35-42 | well 9 is A2, well 96 is H12, and 97 wells fail |
| `Scenarios.AlternatingWells` | generate_idot.py:198-202 | a reagent on A1 and A2 used three times draws A1, A2, A1 |
| `Scenarios.AlternatingCounts` | generate_idot.py:201 | those draws leave A1 used twice and A2 once |
| `Scenarios.VolumeRules` | generate_idot.py:206-219 | at 10 µL per reaction and 0.5 µL per part: 3 parts leave 8.5 µL of filler, 20 parts get no filler record, 21 parts fail |

## Left out

- The spreadsheet readers `read_settings`, `read_source_plate`,
  `read_combinatorial`, `read_manual_rows` and `read_manual_columns`, and
  `_cell_to_str` (generate_idot.py:47-135), are left out. They read workbook
  cells through openpyxl, which is not part of this model. Their outputs are
  the inputs here: the reagent map, the groups and the reaction lists.
- `write_idot_csv` (generate_idot.py:226-258) is left out because it does
  file I/O and stamps the current time.
- `print_summary` (generate_idot.py:263-307) is left out. It reports per
  source-well totals to the console and, when a path is given, writes the
  same summary as a CSV file; both are output only and feed nothing back
  into planning.
- `main` (generate_idot.py:312-387) is left out. It covers command-line
  parsing, workbook loading, mode dispatch and exit codes.
- Floating-point volumes and `round(…, 4)` are not modelled. Volumes are
  exact integers in 0.0001 µL units.
- Error messages are not modelled as text. Each error is a value holding
  the data its message reports; for a missing reagent that is the sorted
  list of names that `", ".join` would print.
- WellGrid.ParseColumn, WellGrid.WellSortKey: the column is read as ASCII decimal digits only.
  Python's `int()` also accepts surrounding whitespace, a sign, underscores
  between digits and non-ASCII digits. Such names never come from
  `generate_target_wells`.
- WellGrid.UpperAscii: upper-casing is modelled for ASCII letters only, not
  the full Unicode case mapping of `str.upper()`.
- The default argument values of `build_dispense_rows` (10.0, 0.5, "A1",
  "Mastermix"; generate_idot.py:174-177) are not modelled.
  `BuildDispenseRows` takes all four as parameters; the only caller, `main`
  (generate_idot.py:361-365), passes all four.
- `itertools.product` is modelled by its result (the `Product` function),
  not as a lazy iterator.
