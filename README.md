# cellengine-python-toolkit: event-table assembly, population paths and experiment bodies

This project is a Dafny model of three small parts of the CellEngine Python client:

- **Event-table assembly** (`parse_fcs_file`). An FCS decoder returns a flat list of event values, a channel count and a dictionary from channel index strings to keyword records. The model turns that into a labelled table. The flat list is cut events-major into rows of `channel_count` values. The channels are sorted stably by `int(index)`. Each column gets a two-level label: the `$PnN` short name and the optional `$PnS` stain name (FCS 3.1 per-parameter keywords). Errors come in the order the source raises them: the reshape fails, an index is not an integer, a `PnN` is missing, or the label count differs from the row width.
- **Population** (`population.py`). This covers the attrs record and which fields carry the readonly hook. It also covers `__repr__` and the `path` property. `path` is built with `rstrip("/None")`, which strips a trailing run of characters from the set {`/`, `N`, `o`, `n`, `e`}. It does not remove the suffix `/None`.
- **Experiment** (`experiment.py`). This covers the truthy-filtered body of `create` and the "name if given, else `_id`" look-up arguments. The same selector appears in `population.py:39`. It also covers the `create_compensation` body and the in-place edits of the `_properties` dictionary made by `delete`, `undelete` and the `active_compensation` setter, plus the value returned by the `active_compensation` getter.

Modules:

- `Outcomes`: Option and Result.
- `PythonInt`: `int()` and `str()` on decimal strings.
- `ChannelOrder`: the stable sort of the channel items.
- `ParseFcsFile`: reshape, header and the whole pipeline.
- `PopulationResource`
- `ExperimentResource`: includes the `Experiment` class, which holds the `_properties` map as a field.

`delete` and `undelete` are both declared as properties (cellengine/resources/experiment.py:90, 100). Reading `experiment.undelete` performs the edit. Writing `experiment.undelete()` performs it and then raises TypeError, because it calls the property's None result. `experiment.delete(confirm=True)` likewise raises TypeError after running with confirm False.

Event values are a type parameter. The decoder's output is an input record (`FlowData`). The channel dictionary is a sequence of items in dictionary order, which decides ties in the stable sort. `today_timestamp()` is a parameter of `delete`.

Three points follow the code exactly where a reader might expect otherwise:
- Channel order comes from `int()` of the dictionary key, not from a 1-based keyword number.
- A missing `PnN` is a KeyError, not a format error.
- A channel count that differs from the number of channel entries fails only when the frame is built.

## Model

| member | source | states |
|---|---|---|
| PythonInt.ParseInt | cellengine/utils/parse_fcs_file.py:10 | `int(s)` accepts exactly the strings whose text after an optional '+' or '-' is a non-empty run of digits (anything else raises ValueError); the value's magnitude is those digits' value, and it is not positive after a '-' and not negative otherwise |
| PythonInt.ParseIntCanonical | cellengine/utils/parse_fcs_file.py:10 | every accepted string is `str(k)` of its value k, up to an optional sign and leading zeros |
| PythonInt.ParseFormatRoundTrip | cellengine/utils/parse_fcs_file.py:10 | `int(str(n)) == n` for every integer, so every decimal index string the decoder writes gives its sort key back |
| PythonInt.LeadingZeroIgnored | cellengine/utils/parse_fcs_file.py:10 | `int("0" + s) == int(s)` for a digit string, so "1" and "01" have equal sort keys |
| ChannelOrder.SortByIndex | cellengine/utils/parse_fcs_file.py:10 | the sorted channels are in ascending `int(index)` order, have the same length and are a permutation (multiset) of the input items |
| ChannelOrder.SortedChannels | cellengine/utils/parse_fcs_file.py:10 | the sort succeeds exactly when every index parses as an integer; it then returns an ascending permutation of the items |
| ChannelOrder.SortIsStable | cellengine/utils/parse_fcs_file.py:10 | for every key value, the items with that key keep their dictionary order (Python's sort is stable) |
| ChannelOrder.SortOfAscending | cellengine/utils/parse_fcs_file.py:10 | items already in ascending index order come back unchanged |
| ParseFcsFile.Rows | cellengine/utils/parse_fcs_file.py:9 | cutting `count * width` values gives `count` rows of exactly `width` values |
| ParseFcsFile.RowsAt | cellengine/utils/parse_fcs_file.py:9 | value j of row i is flat value `i * width + j` (events-major layout) |
| ParseFcsFile.Reshape | cellengine/utils/parse_fcs_file.py:9 | `np.reshape(events, (-1, c))` succeeds exactly when `c > 0` and `c` divides the event count; it then gives `len / c` rows |
| ParseFcsFile.ReshapeCell | cellengine/utils/parse_fcs_file.py:9 | in a successful reshape, cell (i, j) is flat value `i * c + j` |
| ParseFcsFile.FlattenRows | cellengine/utils/parse_fcs_file.py:9 | concatenating the rows gives the event list back, so no event is lost or reordered |
| ParseFcsFile.RowsFlatten | cellengine/utils/parse_fcs_file.py:9 | reshaping a table flattened row by row gives the same table back |
| ParseFcsFile.ShortNames | cellengine/utils/parse_fcs_file.py:11 | the `PnN` list exists exactly when every channel has `PnN` (otherwise KeyError); entry i is channel i's `PnN` |
| ParseFcsFile.StainNames | cellengine/utils/parse_fcs_file.py:12 | never fails; entry i is channel i's `PnS`, or None exactly when that key is absent |
| ParseFcsFile.Header | cellengine/utils/parse_fcs_file.py:10-13 | each error holds exactly when its cause holds: a bad index, then a missing `PnN`, then a label count different from the row width; on success both label lists have length c and follow the sorted channels |
| ParseFcsFile.Parse | cellengine/utils/parse_fcs_file.py:7-13 | a reshape error holds exactly when the shape is wrong; each later error holds exactly when its cause holds and everything before it passed, checked against the unsorted items; a success carries the reshaped rows and the sorted header |
| ParseFcsFile.ParseRows | cellengine/utils/parse_fcs_file.py:9 | a parsed table has `len(events) / c` rows of c values each |
| ParseFcsFile.ParseCell | cellengine/utils/parse_fcs_file.py:9 | in a parsed table, cell (i, j) is event value `i * c + j` |
| ParseFcsFile.ParseHeader | cellengine/utils/parse_fcs_file.py:11-13 | column i is labelled with the `PnN` and the `PnS` (or None) of the channel with the i-th smallest index; both header levels have length c |
| ParseFcsFile.ParseWellFormed | cellengine/utils/parse_fcs_file.py:7-13 | a well-formed decoder result parses, and its rows are exactly the rows it was flattened from |
| PopulationResource.NewPopulation | cellengine/resources/population.py:12-18 | `unique_name`, `parent_id` and `terminal_gate_gid` default to None; the four required fields are stored as given |
| PopulationResource.Assign | cellengine/resources/population.py:12-18 | assigning `_id`, `experiment_id` or `unique_name` goes to the readonly hook, and no other field does; any other assignment changes only that field |
| PopulationResource.Repr | cellengine/resources/population.py:20-21 | the repr is `Population(_id='`, then the id (`None` when unset), then `', name='`, then the name, then `')`: each part is pinned at its position and the length is their sum |
| PopulationResource.ReprShowsId | cellengine/resources/population.py:20-21 | when the id holds no quote, the text after `_id='` up to the next quote is exactly the id |
| PopulationResource.ReprShowsName | cellengine/resources/population.py:20-21 | when the id holds no quote, the text after the id's closing quote and the `, name='` separator, up to the final `')`, is exactly the name |
| PopulationResource.RStrip | cellengine/resources/population.py:25-27 | `rstrip("/None")` returns a prefix of its input; every removed character is in {/, N, o, n, e}; the result is empty or ends outside that set |
| PopulationResource.RStripUnique | cellengine/resources/population.py:25-27 | those three facts fix the result: any split of that shape is the one rstrip returns |
| PopulationResource.RStripIdempotent | cellengine/resources/population.py:25-27 | stripping twice equals stripping once |
| PopulationResource.Path | cellengine/resources/population.py:24-27 | the path starts with `experiments/<eid>/populations`, is non-empty, never ends in a stripped character, and is exactly the collection path when `_id` is None |
| PopulationResource.PathThenStripped | cellengine/resources/population.py:25-27 | the formatted string is the path followed only by characters from the strip set |
| PopulationResource.PathTruncatesId | cellengine/resources/population.py:25-27 | an id ending in a stripped character gives the same path as that id without its last character |
| PopulationResource.PathOfObjectIdEndingInE | cellengine/resources/population.py:25-27 | the ObjectId `5d38a6f79fae87499999a74e` gets the path meant for `5d38a6f79fae87499999a74`, which is not the path meant for its own id |
| PopulationResource.IntendedPath | cellengine/resources/population.py:24-27 | the collection path when `_id` is None; otherwise the collection path, "/" and the whole id |
| PopulationResource.IntendedPathInjective | cellengine/resources/population.py:24-27 | within one experiment, equal intended paths mean equal ids |
| PopulationResource.PathAgreesOnSafeIds | cellengine/resources/population.py:24-27 | the path as written equals the intended path when `_id` is None or ends outside the strip set |
| ExperimentResource.KeepTruthy | cellengine/resources/experiment.py:58-68 | the dict comprehension keeps a key exactly when its value is truthy, keeps that value unchanged, and adds no other key |
| ExperimentResource.CreateBody | cellengine/resources/experiment.py:58-68 | each of name, comments, uploader, primaryResearcher and tags is present exactly when its argument is truthy, holding the argument; there are no other keys, and `primary_researcher` is renamed |
| ExperimentResource.CreateBodyOfDefaults | cellengine/resources/experiment.py:58-68 | when every argument is None the body is empty |
| ExperimentResource.LookupKwargs | cellengine/resources/experiment.py:35 | exactly one key: `name` (holding the name) when the name is truthy, otherwise `_id` (holding the id, possibly None) |
| ExperimentResource.CompensationBody | cellengine/resources/experiment.py:166 | the body's keys are exactly name, channels and spillMatrix, with no check of the matrix length |
| ExperimentResource.CompensationBodyRoundTrip | cellengine/resources/experiment.py:166 | reading the body back gives the name, the channel list and the spill matrix unchanged |
| ExperimentResource.AfterDelete | cellengine/resources/experiment.py:90-98 | with confirm, only `deleted` is set, to the timestamp; without confirm the properties are unchanged |
| ExperimentResource.DeletePropertyIsNoOp | cellengine/resources/experiment.py:90-98 | read as a property (confirm false), `delete` never marks an unmarked experiment |
| ExperimentResource.AfterUndelete | cellengine/resources/experiment.py:100-104 | `deleted` is never touched and the deletion mark is unchanged; when marked, only `delete` is set to None; otherwise nothing changes |
| ExperimentResource.UndeleteDoesNotRestore | cellengine/resources/experiment.py:90-104 | after delete(confirm) and undelete, the experiment is still marked deleted and carries a stray `delete` key |
| ExperimentResource.UndeleteIntended | cellengine/resources/experiment.py:100-104 | clears the deletion mark and changes no other entry and no key set |
| ExperimentResource.DeleteUndeleteIntended | cellengine/resources/experiment.py:90-104 | delete then the intended undelete leaves the experiment unmarked, with every other entry as before |
| ExperimentResource.Experiment.DeleteAsProperty | cellengine/resources/experiment.py:90-98 | reading `experiment.delete`, as the `@property` declaration makes every use, leaves the properties unchanged |
| ExperimentResource.Experiment.Delete | cellengine/resources/experiment.py:90-98 | the intended behaviour, which the property declaration makes unreachable: the new properties are `AfterDelete` of the old ones, so with confirm only `deleted` is set |
| ExperimentResource.Experiment.Undelete | cellengine/resources/experiment.py:100-104 | the new properties are `AfterUndelete` of the old ones |
| ExperimentResource.Experiment.ActiveCompensation | cellengine/resources/experiment.py:106-117 | a missing key is a KeyError; a str id is fetched together with the experiment's own id; an int is returned unchanged; None gives None; any other value (bool, float, list) is a ValueError carrying that value, as the error message does |
| ExperimentResource.Experiment.SetActiveCompensation | cellengine/resources/experiment.py:119-121 | only `activeCompensation` changes, and the getter then classifies the value just set |

## Left out

- Binary FCS decoding inside `flowio.FlowData` (cellengine/utils/parse_fcs_file.py:8): a foreign library. Its result is the input record `FlowData`.
- The `dtype="float32"` conversion of the data frame (cellengine/utils/parse_fcs_file.py:13): floating point. Event values are left abstract.
- PythonInt.ParseInt: Python's `int()` also accepts surrounding whitespace, underscores between digits and non-ASCII digits. The model accepts only an optional sign and ASCII digits, and treats everything else as ValueError.
- ParseFcsFile.Parse: pandas' own MultiIndex construction is not modelled beyond the shape check. Its result is the two label lists.
- Every `ce.APIClient()` call in experiment.py and population.py (get, create, update, clone, attachments, compensations, FCS files, gates, populations, statistics, scalesets): network plumbing. Only the data handed to them is modelled. The str branch of the `active_compensation` getter becomes the request `FetchCompensation(experimentId, compensationId)`, which carries the experiment's own id and the stored compensation id.
- ExperimentResource.CreateBody: key order of the body dictionary is not modelled, because the body is a map.
- `Population.get`, `update`, `delete`, `from_dict` and `to_dict`: remote sync and attrs (un)structuring through code that is not part of this model.
- PopulationResource.Assign: what the readonly hook does (raise or ignore) is not part of this model. Only which assignments reach it is modelled, and assigned values are strings.
- Gate creation, the `format_*_gate` helpers and `doc_inherit` (cellengine/resources/experiment.py:246-282): formatting code not part of this model, and decorator plumbing.
- `create_population` (cellengine/resources/experiment.py:284-302): always raises NotImplementedError.
- `today_timestamp` is a clock read. It is the `timestamp` parameter of `Delete`.
- Compensation construction, spill-string parsing and application: their source file is not part of this model.

## Findings

| source | as written | input that shows it | evidently intended | confidence | as-written member | corrected member |
|---|---|---|---|---|---|---|
| cellengine/resources/population.py:25-27 | `rstrip("/None")` strips any trailing run of `/`, `N`, `o`, `n`, `e` | `_id = "5d38a6f79fae87499999a74e"` (an ObjectId ending in hex digit e) gives `experiments/x/populations/5d38a6f79fae87499999a74` | drop only the `/None` of an unsaved population; keep a real id whole | high; not executed | PopulationResource.PathOfObjectIdEndingInE | PopulationResource.IntendedPath |
| cellengine/resources/experiment.py:100-104 | `undelete` assigns `_properties["delete"]` | properties `{"deleted": "2021-01-01"}`: after `undelete` `deleted` is still set and a key `delete` appears | set `_properties["deleted"]` to None | high; not executed | ExperimentResource.UndeleteDoesNotRestore | ExperimentResource.UndeleteIntended |
| cellengine/resources/experiment.py:90-98 | `delete` is a `@property` with a `confirm=False` parameter, so attribute access always runs it with confirm false | `experiment.delete` on an unmarked experiment leaves it unmarked | a method whose `confirm=True` sets `deleted` to today's timestamp | medium; not executed | ExperimentResource.Experiment.DeleteAsProperty | ExperimentResource.Experiment.Delete |
