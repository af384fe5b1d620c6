# Run-info builder of a task-fMRI analysis pipeline, in Dafny

This project models the one piece of real logic in `workflows.py`: the helper
`_bids2nipypeinfo`. It turns a subject's events table (trial type, onset,
duration, optional `amplitudes`) and confounds table (motion parameters and
other confound columns) into the run-info record the GLM design step consumes.
That record has:

- the list of conditions (the distinct trial types);
- one onset list, one duration list and one amplitude list per condition, kept parallel;
- optionally, regressor names and one value list per chosen confound column.

The helper also produces the motion-parameter matrix it writes to `motion.par`.
The small edge-transform helpers `_len`, `_dof`, `_neg`, `_get_tr`, `_dict_ds` and
the `DATA_ITEMS` list are modelled as well.

Modules, one concept each:

- `Wrappers` (`wrappers.dfy`): `Option` for Python's `None`, and `Result` for a call that may raise.
- `Sequences` (`sequences.dfy`): `set(...)` as `Elems`, duplicate-free enumerations of a set, and subsequences.
- `Strings` (`strings.dfy`): `str.match` with a literal pattern as `StartsWith`, and Python's `<` on `str` as `Less`, proved a strict total order. It also holds `sorted(set(...))` as an insertion sort, proved to give the only ascending repeat-free listing.
- `Tables` (`tables.dfy`): the two tables as `pd.read_csv` makes them, and the dataframe operations the builder uses. These are column selection with its `KeyError`, `fillna` and `.T`.
- `RunInfo` (`runinfo.dfy`): the builder itself, `Bids2NipypeInfo`.
- `RunInfoProperties` (`properties.dfy`): lemmas relating the builder's outputs to each other and to its inputs.
- `Intended` (`intended.dfy`): the corrected builder described under Findings.
- `Scenarios` (`scenarios.dfy`): concrete calls.
- `Helpers` (`helpers.dfy`): `_len`, `_dof`, `_neg`, `_get_tr`, `_dict_ds`, `DATA_ITEMS`.

Modelling choices:

- Values are `real`. `np.round` is the parameter `round: (real, nat) -> real`, so nothing about floating point is assumed.
- Python set iteration order is unspecified. The builder therefore takes a `SetOrders` value:
  - `conditions` is the order of `list(set(trial types))`;
  - `fallback` is the order of `list(set(names) & set(columns))`.
  `Admissible` only requires that each of these lists its set exactly once. Every property below holds for every such order.
- `str.match(condition)` is modelled as a prefix test, which is exact for trial types without regex metacharacters.
- Trial types are strings without regex metacharacters. Within that scope, the `KeyError` of `regress_data[motion_columns]` is the only failure the builder raises on well-formed tables. It is a `Failure` that lists the missing motion columns. The other failures of the source are listed under "Left out".
- `decimals` (workflows.py:269) is accepted but never read, because every `np.round` passes 3 (see Findings).
- `list(set(...))` has no fixed order, so the as-written model accepts any order. Only `Intended` fixes one.

## Model

| member | source | states |
|---|---|---|
| `Sequences.Dedup` | workflows.py:297 | lists each distinct element exactly once, as a subsequence of the input, in order of first appearance; this is the deterministic replacement for `list(set(...))` |
| `Sequences.DedupUnique` | workflows.py:297 | any repeat-free listing of the input's elements in order of first appearance is `Dedup`'s result, so that order determines the list |
| `Strings.LessTotal` | workflows.py:289 | Python string order compares any two distinct strings |
| `Strings.LessTransitive` | workflows.py:289 | Python string order is transitive |
| `Strings.SortStrings` | workflows.py:289 | `sorted(set(s))` is strictly ascending and has exactly the elements of `s` |
| `Strings.SortedUnique` | workflows.py:289 | two strictly ascending lists with the same elements are equal, so the sorted result depends only on the set |
| `Tables.TrialTypeColumn` | workflows.py:297 | the `trial_type` column has one label per row, and its set is the table's trial types |
| `Tables.Absent` | workflows.py:313-314 | the requested names missing from the table, in request order; empty exactly when every name is a column |
| `Tables.Present` | workflows.py:315-316 | the requested names that are columns, in request order; their set is `set(names) & set(columns)` |
| `Tables.Project` | workflows.py:287 | `df[names].values` succeeds exactly when every name is a column. On success it has one row per table row, and entry k is the cell under the k-th name. On `KeyError` it lists exactly the missing names |
| `Tables.ProjectAllColumns` | workflows.py:287 | selecting every column in table order gives back the table |
| `Tables.FillAll` | workflows.py:318 | `fillna` keeps the shape; a missing cell becomes the fill value and a number stays itself |
| `Tables.Transpose` | workflows.py:318 | `.T` turns an n-by-w matrix into w lists of n entries, with entry (j, i) equal to entry (i, j) |
| `Tables.TransposeInvolution` | workflows.py:318 | transposing twice gives back the matrix for every shape, empty ones included |
| `RunInfo.JoinProduct` | workflows.py:282 | `product(prefixes, axes)` joined with `_` yields one name per (prefix, axis) pair |
| `RunInfo.DefaultMotionColumnsValue` | workflows.py:280-282 | the default motion columns are `trans_x, trans_y, trans_z, rot_x, rot_y, rot_z`, in that order |
| `RunInfo.MotionColumns` | workflows.py:280-282 | `if not motion_columns` keeps a non-empty argument; None and `[]` both give the default, and the result is never empty |
| `RunInfo.DefaultRegressorNames` | workflows.py:288-289 | the default regressor names are strictly ascending, have no repeats, and are exactly the columns that are not motion columns |
| `RunInfo.DefaultRegressorNamesUnique` | workflows.py:288-289 | any ascending repeat-free listing of the non-motion columns is the default list |
| `RunInfo.RegressorColumns` | workflows.py:312-317 | selects the requested names when all exist. Otherwise it selects each requested name exactly when it is a column, with no repeats, and raises no error |
| `RunInfo.RegressorValues` | workflows.py:313-318 | one list per selected column, each as long as the table, with entry i being row i's cell under that column and a missing cell read as 0.0 |
| `RunInfo.SelectsOwnLabel` | workflows.py:301 | every trial type selects its own rows |
| `RunInfo.SelectedRows` | workflows.py:301 | the rows a condition picks all start with its label. They are a subsequence of the table (table order), and hold every such row as often as the table does |
| `RunInfo.EventsFor` | workflows.py:302-308 | a condition's three lists have equal length. Entry k of each comes from the k-th picked row, rounded to the given digits. Without an `amplitudes` column every amplitude is `amplitude` |
| `RunInfo.Bids2NipypeInfo` | workflows.py:266-320 | succeeds exactly when all motion columns exist, and otherwise fails with exactly the missing ones. On success: conditions list each trial type once; the three lists are parallel per condition (prefix selection, 3 digits); the regressor fields exist exactly when the chosen names are non-empty and then keep the full requested names; the motion matrix is the motion columns row by row |
| `RunInfoProperties.OnsetListLengths` | workflows.py:300-303 | each condition's onset list is as long as its selection of rows |
| `RunInfoProperties.EveryEventIsListed` | workflows.py:297-304 | every event row's rounded onset and duration appear, at the same position, in the lists of its own trial type |
| `RunInfoProperties.PickedCoversRows` | workflows.py:300-301 | when only a row's own condition picks it, the conditions together pick every row exactly once |
| `RunInfoProperties.PrefixFreeTypesListEachRowOnce` | workflows.py:297-303 | when no trial type is a prefix of another, the onset lists together hold exactly one entry per event row |
| `RunInfoProperties.TwoConditions` | workflows.py:297-303 | with exactly two trial types there are two conditions, and their onset lists hold as many entries as their two selections |
| `RunInfoProperties.AmplitudesDefaultWithoutColumn` | workflows.py:305-308 | without an `amplitudes` column, each amplitude list is `amplitude` repeated, as long as the onset list |
| `RunInfoProperties.DefaultRegressorsAreNonMotionColumns` | workflows.py:288-318 | with `regressors_names` None, the regressor fields exist exactly when some column is not a motion column. Their names are then exactly those columns, ascending and repeat-free, each with one value per row |
| `RunInfoProperties.MissingRequestedNamesFallBack` | workflows.py:310-318 | when some requested names are absent, the call still succeeds. `regressor_names` keeps the full request, and there is one value list per distinct requested name that exists. The values are non-empty exactly when one requested name exists |
| `RunInfoProperties.RegressorsReadMissingAsZero` | workflows.py:318 | a missing confound value reaches the regressors as 0.0, and a present one unchanged |
| `RunInfoProperties.DistinctCardinality` | workflows.py:315-316 | a repeat-free list is as long as its set, which is how many fallback columns there are |
| `RunInfoProperties.DefaultArgumentsCall` | workflows.py:266-308 | with every optional argument at its default, the call succeeds exactly when the six default motion columns exist. The motion matrix is then six wide, the regressor names are the other columns in ascending order, and every amplitude is 1.0 when the events table has no amplitudes |
| `RunInfoProperties.DecimalsIgnored` | workflows.py:303-306 | changing `decimals` never changes the result |
| `Intended.IntendedOrders` | workflows.py:297 | admissible set orders: the conditions follow the first appearance of each trial type, and the fallback names are a subsequence of the request, in order of first request |
| `Intended.Bids2NipypeInfoIntended` | workflows.py:297-318 | corrected builder. Conditions list each trial type once, in order of first appearance. Each condition selects exactly its trial type's rows, rounded to `decimals` digits. The regressor fields keep the full request, and their columns are a subsequence of it |
| `Intended.IntendedListsEachRowOnce` | workflows.py:300-308 | with exact selection, the onset lists hold exactly one entry per event row, and only rows of the condition's own trial type |
| `Scenarios.PrefixSelectionDoubleCounts` | workflows.py:301 | with trial types `A` and `AB`, in either condition order, condition `A` lists both rows, giving 3 entries for 2 events |
| `Scenarios.TwoTrialTypesScenario` | workflows.py:297-304 | ten events, six `A` and four `B`, give two conditions with six and four onsets |
| `Helpers.GetTr` | workflows.py:323-324 | `in_dict.get('RepetitionTime')` is present exactly when the key is, and is then its value |
| `Helpers.DictDs` | workflows.py:339-340 | succeeds exactly when `order` is empty or the subject and every key exist; the i-th item is the subject's value for the i-th key. Otherwise the `KeyError` names the subject, or a missing key |
| `Helpers.DictDsFollowsDataItems` | workflows.py:339-340 | the default order is `DATA_ITEMS`, so a complete subject yields its five items in `DATA_ITEMS` order |
| `Helpers.DofIsLenMinusOne` | workflows.py:327-332 | `_dof(l) == _len(l) - 1` |
| `Helpers.FourCopes` | workflows.py:327-332 | four cope maps give `_len` 4 and `_dof` 3 |
| `Helpers.NegInvolution` | workflows.py:335-336 | `_neg` applied twice gives back its argument |

## Left out

- `first_level_wf` and `second_level_wf` (workflows.py:24-263) are left out. They only declare nipype nodes around external FSL tools and connect them, so they compute nothing of their own.
- The `DerivativesDataSink` subclasses (workflows.py:16-21) and the commented-out FDR steps are left out. They hold only configuration.
- File I/O is left out. Reading the two files is replaced by already-parsed tables. Writing `motion.par` with `%g` formatting is replaced by the motion matrix it would contain, and the returned path by nothing. The source returns the run info inside a one-element list; the model returns the record itself.
- Floating point is left out. Values are reals, and `np.round` is an uninterpreted parameter. NaN in the events table is not represented.
- Regular expressions are left out: conditions are treated as literal prefix patterns. A trial type with regex metacharacters selects differently in the source, or makes `str.match` raise `re.error` when it is not a valid pattern (for example `go(left`). The model promises `Success` for such trial types, unlike the source.
- Non-string trial types are left out: `trial_type` is always a column of strings. When every trial type is numeric (`1`, `2`), `pd.read_csv` reads the column as integers, and `events.trial_type.str` raises `AttributeError` at workflows.py:301. The model promises `Success` for these tables, unlike the source.
- Malformed tables are left out. The model cannot express an events table lacking `trial_type`, `onset` or `duration` (an `AttributeError` in the source), or non-numeric confound columns. Confound column names are taken as distinct, as `pd.read_csv` makes them.
- `scans` (`in_file`) is passed through as an opaque string.
- RunInfo.JoinProduct: its contract states only the length. The value of the one call the source makes is stated by `RunInfo.DefaultMotionColumnsValue`.
- RunInfo.Bids2NipypeInfo: the order of `list(set(...))` is taken as an argument constrained to enumerate the set, rather than modelled as Python's hash order.

## Findings

| source | as written | input that shows it | evidently intended | confidence | as-written member | corrected member |
|---|---|---|---|---|---|---|
| workflows.py:301 | `events.trial_type.str.match(condition)` picks every row whose trial type starts with the condition | trial types `A` and `AB`: condition `A` lists both rows, so there are 3 entries for 2 events | a condition lists only the rows of its own trial type, each row exactly once | not executed; high | `Scenarios.PrefixSelectionDoubleCounts` | `Intended.IntendedListsEachRowOnce` |
| workflows.py:303-306 | `np.round(..., 3)` ignores the `decimals` argument | `decimals=1` still rounds onsets, durations and amplitudes to 3 digits | round to `decimals` digits | not executed; medium | `RunInfoProperties.DecimalsIgnored` | `Intended.Bids2NipypeInfoIntended` |
