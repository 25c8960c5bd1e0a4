# Schema-driven metric adapter — a Dafny model

This project models the adapter layer of `home_server` (`src/home_server/base.py`):
the object that binds a typed record schema to a metric name, classifies the
schema's fields into tags and a timestamp field, turns a record into a metric
point for the write client (Telegraf), builds the InfluxQL read queries and
post-processes what the store returns.

Modules:

- `Values` (`values.dfy`): scalars, the raised exceptions, `Option`/`Result`, Python truthiness of an optional integer.
- `Schema` (`schema.dfy`): field descriptors `(name, isTag, isTimestamp)` in declaration order; the tag set and the timestamp field they give.
- `Flatten` (`flatten.dfy`): `flatten` over a `Tree` (`Leaf` or `Node` of keyed children); a reference description by leaf paths.
- `Writer` (`writer.dfy`): the point that `metric` emits (`BuildPoint`) and its properties.
- `Query` (`query.dfy`): `tags_str_query`, the WHERE clauses, `LIMIT`, both query strings.
- `Rows` (`rows.dfy`): concatenation of the reply's frames, the sort by timestamp and the keep-first de-duplication.
- `ModelIo` (`model_io.dfy`): the `ModelIO` class (fields `tags`, `timestampField`; ghost logs of what reaches the clients), `influx_io`'s argument checks.

The write client, the read client and the store are outside the model. A point
handed to the write client is appended to the ghost log `emitted`. A query sent
to the read client is appended to `queries`, and a dropped measurement to
`dropped`. The store's reply to a query is a method parameter (`reply`). The
wall clock (`time.time()`) is the parameter `now`. Rendering a datetime into
the query is the function parameter `render`. Python's set iteration order is
unspecified, so the tag order is whichever enumeration of the set the loop
picks; the query contracts say "for some enumeration of the tags".

Behaviour of the code worth noting:

- The latest-rows and time-series queries end `ORDER BY DESC`, with no column named.
- A schema without a timestamp field leaves `timestamp_field` at its class default `""`; the model uses that empty name. A key `""` in the data is then not removed from the values.
- `BaseModelIO._init_schema` (base.py:90-100) and `ModelIO._init_schema` (base.py:120-130) are the same code; both are modelled by `ModelIO.InitSchema`.
- `_init_schema` resets the tag set but not the timestamp field. A second classification without a marked field keeps the earlier timestamp field (`ModelIO.InitSchema`).
- `influx_io` always supplies a read client: a missing one is built by the settings factory. The "no read client" error is reachable only through a `ModelIO` built directly.
- `tags_str_query` is empty when the joined tags are empty. That also happens for a single tag with an empty name.

## Model

| member | source | states |
|---|---|---|
| `Schema.TagsOfIff` | src/home_server/base.py:122-127 | a name is a tag exactly when some declared field marked `telegraf_tag` has that name after prefixing |
| `Schema.LastTimestampIsLastMarked` | src/home_server/base.py:123-130 | with several fields marked `telegraf_timestamp`, the last one in declaration order becomes the timestamp field |
| `Schema.LastTimestampUnmarked` | src/home_server/base.py:129-130 | with no marked field the timestamp field keeps its previous value (`""` after construction) |
| `ModelIo.ModelIO.InitSchema` | src/home_server/base.py:120-130 | the loop leaves `tags` equal to the tags of this schema alone (earlier tags do not survive) and the timestamp field equal to the last marked field, or unchanged |
| `ModelIo.ModelIO.constructor` | src/home_server/base.py:104-118 | a fresh adapter starts with no tags and timestamp field `""`, then is classified; metric name, multiplier and read client are kept as given |
| `Flatten.FlattenDict` | src/home_server/base.py:237-245 | the recursive loop computes `dict` of the flattened items: nested entries spliced in under `parent+sep+key`, the rest under their joined key |
| `Flatten.ToMapKeys` | src/home_server/base.py:245 | a key is in `dict(items)` exactly when some item carries it |
| `Flatten.ToMapLastWins` | src/home_server/base.py:245 | on a key collision the entry produced later wins |
| `Flatten.ToMapAppend` | src/home_server/base.py:242-245 | splicing a nested result's items in and then building the dict is a map override |
| `Flatten.FlatItemsArePaths` | src/home_server/base.py:237-245 | the flattened items are exactly the leaves in order, each under `k1+sep+…+kn` for the keys leading to it |
| `Flatten.LeafAppears` | src/home_server/base.py:237-245 | every leaf's joined path is a key of the result, holding that leaf's value unless a later leaf has the same path |
| `Flatten.KeysArePaths` | src/home_server/base.py:237-245 | every key of the result is the joined path of some leaf (the values are all scalars: no mapping survives) |
| `Flatten.FlatInputUnchanged` | src/home_server/base.py:237-245 | an already flat mapping comes back unchanged |
| `Writer.PointTags` | src/home_server/base.py:133-138 | the emitted tag map's keys are exactly the schema's tags; each value comes from the flattened data when present, else from the record attribute |
| `Writer.PointValues` | src/home_server/base.py:133-146 | the emitted values are the flattened sparse data minus every tag and minus the timestamp field, values unchanged; tags never appear among the values |
| `Writer.PointTimestamp` | src/home_server/base.py:139-143 | the timestamp is `timestamp_mult * value` of the timestamp field (data first, else attribute) when one is declared, and absent otherwise |
| `Writer.PointErrors` | src/home_server/base.py:135-143 | `metric` raises exactly when a tag is neither in the data nor an attribute, or the timestamp field cannot be found or is `None` |
| `ModelIo.ModelIO.Metric` | src/home_server/base.py:132-147 | the popping loop emits exactly the point `BuildPoint` describes, once, and emits nothing when it raises |
| `ModelIo.ResolveConfig` | src/home_server/base.py:49-59 | the metric name is refused with `ValueError` exactly when empty; the multiplier is the given one when non-zero, else the default 1,000,000, so never zero |
| `ModelIo.InfluxIo` | src/home_server/base.py:33-67 | `influx_io` fails exactly when the configuration does, otherwise returns a fresh, classified adapter that has a read client |
| `Query.TagsStrShape` | src/home_server/base.py:149-154 | the tag suffix is empty exactly when there are no tags (or one empty-named tag), otherwise `","` followed by the comma-joined tags |
| `ModelIo.ModelIO.TagsStrQuery` | src/home_server/base.py:149-154 | the property joins the tags in some iteration order of the set; it is empty exactly when the tag set is empty or `{""}` and otherwise starts with a comma |
| `Query.WhereAppend` | src/home_server/base.py:196-201 | adding a clause conjoins it with ` AND ` after the existing ones, or stands alone instead of `1=1` |
| `Query.WhereNonEmpty` | src/home_server/base.py:160-164 | the WHERE condition is never empty: no filters give `1=1` |
| `Query.TimeClausesOrder` | src/home_server/base.py:190-201 | the equality terms come first in filter order, then `time >=`, then `time <` last; the condition is `1=1` exactly when there is no filter and no bound |
| `Query.TimeseriesLimit` | src/home_server/base.py:203-204 | the time-series query ends with `LIMIT n` (digits that read back as `n`) exactly when `limit` is truthy, else with the blank after `DESC` |
| `Query.IntToStringRoundTrip` | src/home_server/base.py:203 | the rendered limit is non-empty, ends in a digit and parses back to the integer |
| `ModelIo.ModelIO.GetLatestUniqueRows` | src/home_server/base.py:156-168 | without a read client it raises `ValueError` and sends nothing; otherwise it sends the latest-point-per-series query once and returns the concatenated reply |
| `ModelIo.ModelIO.GetTimeseries` | src/home_server/base.py:179-209 | without a read client it raises and sends nothing; otherwise it sends one query with the ordered clauses and the limit (`DefaultLimit`, 10000, when the caller gives none), and returns rows strictly increasing in time, one per distinct timestamp, each the first with that timestamp in the reply |
| `ModelIo.ModelIO.DropAllMetric` | src/home_server/base.py:220-223 | without a read client it raises and drops nothing; otherwise it drops the metric's measurement once |
| `Rows.ParseInfluxDf` | src/home_server/base.py:226-234 | the loop concatenates the frames of every series in order; no series gives no rows |
| `Rows.ConcatFramesMembers` | src/home_server/base.py:226-234 | a row is in the concatenation exactly when it is in some frame |
| `Rows.ConcatFramesLength` | src/home_server/base.py:226-234 | the concatenation has as many rows as all frames together, so repeated rows are all kept |
| `Rows.SortByTimeSpec` | src/home_server/base.py:207 | sorting gives rows ordered by time, a permutation of the input, with the rows of each timestamp in input order |
| `Rows.KeepFirst` | src/home_server/base.py:208 | keep-first equals the reference filter `Dedup` (a row stays exactly when no earlier row has its timestamp), so which rows are kept and their input order are fixed; the result is a subsequence of the input with distinct timestamps, the same set of timestamps, each row the first of its timestamp, and strictly increasing when the input is sorted |
| `Rows.SubsequenceSorted` | src/home_server/base.py:206-208 | rows kept in input order from a time-sorted frame are themselves time-sorted |
| `Rows.SortAndDedup` | src/home_server/base.py:206-208 | the post-processed rows are strictly increasing in time, contain exactly the input's timestamps, each with its first row in reply order, and are no more than the input |

## Left out

- `src/home_server/settings.py` (environment settings and client factories) is not part of this model; `OutputModel.io` (base.py:22-31), which only dispatches on the configured I/O mode, is left out with it.
- `src/home_server/sql_io.py` and `src/home_server/postgres_io.py` (ORM table creation and session commits) are not part of this model.
- The client calls themselves (`client.metric`, `influxdb_client.query`, `drop_measurement`) are ghost logs or a reply parameter; sink errors are not modelled. The `chunked`/`chunk_size` arguments are not recorded.
- The pydantic serialisation `model.dict(exclude_unset=True, exclude_defaults=True)` is not computed: a record carries its result (`Record.sparse`) and its attribute values (`Record.attrs`).
- `Record.attrs` holds scalar attributes only; an attribute that is a nested model (reached by `getattr` for a tag absent from the data) is not modelled.
- Column alignment of `pd.concat` is not modelled: each row keeps only its own columns, and a missing key stands for the NaN that pandas fills in.
- Python floats are modelled as exact rationals (`Scalar.Real`); rounding is not modelled.
- `from_df_row` (base.py:211-218) is left out: it converts timestamps with floating-point arithmetic and builds records without validation. The read methods therefore return the rows rather than records.
- The `groupby` reduction of `get_latest_unique_rows` (base.py:169-174) is left out: pandas' `groupby().last()` takes the last non-null value per column, not the last row. `GetLatestUniqueRows` models the call without `groupby`.
- `time.time()` and datetime formatting are parameters (`now`, `render`); `fromtimestamp` is taken in whole seconds.
- Filter values are taken already rendered as strings (`str(value)` is not modelled).
- The store's own semantics (what `GROUP BY *`, `ORDER BY` and `LIMIT` select) are not modelled, so the bound "at most `limit` rows" is not stated.
- Rows.SortByTimeSpec, Rows.SortAndDedup, ModelIo.ModelIO.GetTimeseries: the sort is modelled as stable. pandas' `sort_index` defaults to quicksort, which is not guaranteed stable on large frames, so which of several rows with one timestamp survives ("the first in reply order") is stated for a stable sort.
- Field values are scalars only (`Scalar`: int, real, bool, str, None). A list, datetime or other object value is not representable: `flatten` would keep it as a leaf, and `timestamp_mult * v` would repeat a list or raise `TypeError` for a datetime.
