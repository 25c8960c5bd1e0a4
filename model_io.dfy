/** The adapter object: a classified schema bound to a metric name, a write
    sink and an optional read sink. The sinks are outside the model: what the
    adapter hands them is recorded in ghost logs, and what the store answers to
    a query is a parameter. */
module ModelIo {
  import opened Values
  import opened Schema
  import opened Flatten
  import opened Writer
  import opened Query
  import opened Rows

  /** A point in time in whole seconds since the epoch. */
  type Instant = int

  /** The message of the missing-read-client error. */
  const NoReadClient: string := "Requires influxdb client"

  /** The default `limit` of `get_timeseries` (base.py:181): a caller that
      passes no limit calls `GetTimeseries` with this. */
  const DefaultLimit: Option<int> := Some(10000)

  class ModelIO {
    const metricName: string
    const timestampMult: int
    /** Whether a read client was supplied (`influxdb_client` is truthy). */
    const hasReadClient: bool

    var tags: set<string>
    var timestampField: string

    /** Points handed to the write client, oldest first. */
    ghost var emitted: seq<Point>
    /** Query strings sent to the read client, oldest first. */
    ghost var queries: seq<string>
    /** Measurements dropped through the read client. */
    ghost var dropped: seq<string>

    /** `ModelIO.__init__`: start from no tags and no timestamp field, then
        classify the schema. */
    constructor(metricName: string, schema: seq<FieldDesc>, timestampMult: int, hasReadClient: bool)
      ensures this.metricName == metricName && this.timestampMult == timestampMult
      ensures this.hasReadClient == hasReadClient
      ensures tags == TagsOf(schema, "") && timestampField == LastTimestamp(schema, "", "")
      ensures emitted == [] && queries == [] && dropped == []
    {
      this.metricName := metricName;
      this.timestampMult := timestampMult;
      this.hasReadClient := hasReadClient;
      tags := {};
      timestampField := "";
      emitted, queries, dropped := [], [], [];
      new;
      InitSchema(schema, "");
    }

    /** `_init_schema`: walk the fields in declaration order. The tag set is
        reset first, so no tag of an earlier classification survives; the
        timestamp field is only overwritten by a marked field, the last one
        winning, and is otherwise left as it was. */
    method InitSchema(schema: seq<FieldDesc>, prefix: string)
      modifies this`tags, this`timestampField
      ensures tags == TagsOf(schema, prefix)
      ensures timestampField == LastTimestamp(schema, prefix, old(timestampField))
    {
      tags := {};
      var i := 0;
      while i < |schema|
        invariant 0 <= i <= |schema|
        invariant tags == TagsOf(schema[..i], prefix)
        invariant timestampField == LastTimestamp(schema[..i], prefix, old(timestampField))
      {
        assert schema[..i + 1][..i] == schema[..i];
        var name := prefix + schema[i].name;
        if schema[i].isTag {
          tags := tags + {name};
        }
        if schema[i].isTimestamp {
          timestampField := name;
        }
        i := i + 1;
      }
      assert schema[..|schema|] == schema;
    }

    /** `metric`: flatten the sparse data, pop every tag and then the timestamp
        field out of it (falling back to the record's attribute), scale the
        timestamp and hand the point to the write client. */
    method Metric(rec: Record) returns (res: Result<()>)
      modifies this`emitted
      ensures var b := BuildPoint(metricName, tags, timestampField, timestampMult, rec);
              && (b.Ok? ==> res == Ok(()) && emitted == old(emitted) + [b.value])
              && (b.Err? ==> res == Err(b.error) && emitted == old(emitted))
    {
      var data := FlattenDict(rec.sparse, "", Sep);
      ghost var data0 := data;
      var tagMap: map<string, Scalar> := map[];
      var remaining := tags;
      while remaining != {}
        invariant remaining <= tags
        invariant data0 == Data(rec)
        invariant data == data0 - (tags - remaining)
        invariant tagMap.Keys == tags - remaining
        invariant forall t :: t in tagMap ==>
                    (t in data0 || t in rec.attrs) && tagMap[t] == if t in data0 then data0[t] else rec.attrs[t]
        decreases remaining
      {
        var t :| t in remaining;
        if t in data {
          tagMap := tagMap[t := data[t]];
          data := data - {t};
        } else if t in rec.attrs {
          tagMap := tagMap[t := rec.attrs[t]];
        } else {
          return Err(AttributeError);
        }
        remaining := remaining - {t};
      }
      assert TagsResolvable(data0, rec.attrs, tags);
      assert tagMap == map t | t in tags :: if t in data0 then data0[t] else rec.attrs[t];
      assert data == data0 - tags;
      ghost var b := BuildPoint(metricName, tags, timestampField, timestampMult, rec);
      var timestamp: Option<Scalar> := None;
      if timestampField != "" {
        var v: Scalar;
        if timestampField in data {
          v := data[timestampField];
          data := data - {timestampField};
        } else if timestampField in rec.attrs {
          v := rec.attrs[timestampField];
        } else {
          return Err(AttributeError);
        }
        assert Lookup(data0 - tags, rec.attrs, timestampField) == Ok(v);
        var scaled := Scale(timestampMult, v);
        if scaled.Err? {
          return Err(scaled.error);
        }
        timestamp := Some(scaled.value);
        assert data == data0 - tags - {timestampField};
        assert b == Ok(Point(metricName, data, tagMap, timestamp));
      } else {
        assert b == Ok(Point(metricName, data, tagMap, timestamp));
      }
      emitted := emitted + [Point(metricName, data, tagMap, timestamp)];
      return Ok(());
    }

    /** `tags_str_query`: the tags in the set's iteration order, joined. */
    method TagsStrQuery() returns (s: string, ghost order: seq<string>)
      ensures Enumerates(order, tags) && s == TagsStr(order)
      ensures s == "" <==> tags == {} || tags == {""}
      ensures s != "" ==> s[0] == ','
    {
      var listed: seq<string> := [];
      var remaining := tags;
      while remaining != {}
        invariant remaining <= tags
        invariant Enumerates(listed, tags - remaining)
        decreases remaining
      {
        var t :| t in remaining;
        EnumeratesAppend(listed, tags - remaining, t);
        assert tags - (remaining - {t}) == (tags - remaining) + {t};
        listed := listed + [t];
        remaining := remaining - {t};
      }
      s := TagsStr(listed);
      order := listed;
      TagsStrShape(order);
      EnumeratesSmall(order, tags);
    }

    /** `get_latest_unique_rows` without a `groupby` column: refuse without a
        read client, else send the latest-point-per-series query and return
        the concatenated rows of the reply. */
    method GetLatestUniqueRows(filters: seq<(string, string)>, reply: ResultSet) returns (r: Result<seq<TimedRow>>)
      modifies this`queries
      ensures !hasReadClient ==> r == Err(ValueError(NoReadClient)) && queries == old(queries)
      ensures hasReadClient ==>
                && r == Ok(ConcatFrames(reply))
                && exists order :: Enumerates(order, tags) &&
                     queries == old(queries) + [LatestQuery(TagsStr(order), metricName, filters)]
    {
      if !hasReadClient {
        return Err(ValueError(NoReadClient));
      }
      var tagsStr;
      ghost var order;
      tagsStr, order := TagsStrQuery();
      queries := queries + [LatestQuery(tagsStr, metricName, filters)];
      var rows := ParseInfluxDf(reply);
      r := Ok(rows);
    }

    /** `get_timeseries`: refuse without a read client; else build the WHERE
        clauses step by step (equality filters, then the window start, which
        `last_x_seconds` replaces by `now - last_x_seconds`, then the window
        end), send the query, and sort and de-duplicate the reply. */
    method GetTimeseries(limit: Option<int>, lastX: Option<int>, after: Option<Instant>, before: Option<Instant>,
                         filters: seq<(string, string)>, now: Instant, render: Instant -> string,
                         reply: ResultSet)
      returns (r: Result<seq<TimedRow>>)
      modifies this`queries
      ensures !hasReadClient ==> r == Err(ValueError(NoReadClient)) && queries == old(queries)
      ensures hasReadClient ==>
                var start := if Truthy(lastX) then Some(now - lastX.value) else after;
                var clauses := TimeClauses(filters, if start.Some? then Some(render(start.value)) else None,
                                           if before.Some? then Some(render(before.value)) else None);
                exists order :: Enumerates(order, tags) &&
                  queries == old(queries) + [TimeseriesQuery(TagsStr(order), metricName, clauses, limit)]
      ensures hasReadClient ==>
                && r.Ok?
                && StrictlyIncreasing(r.value)
                && Times(r.value) == Times(ConcatFrames(reply))
                && |r.value| <= |ConcatFrames(reply)|
                && forall j :: 0 <= j < |r.value| ==>
                     r.value[j].0 in Times(ConcatFrames(reply)) &&
                     r.value[j] == FirstWithTime(ConcatFrames(reply), r.value[j].0)
    {
      if !hasReadClient {
        return Err(ValueError(NoReadClient));
      }
      var whereClauses := EqTerms(filters);
      var start := after;
      if Truthy(lastX) {
        start := Some(now - lastX.value);
      }
      if start.Some? {
        whereClauses := whereClauses + [AfterTerm(render(start.value))];
      }
      if before.Some? {
        whereClauses := whereClauses + [BeforeTerm(render(before.value))];
      }
      var tagsStr;
      ghost var order;
      tagsStr, order := TagsStrQuery();
      queries := queries + [TimeseriesQuery(tagsStr, metricName, whereClauses, limit)];
      assert whereClauses == TimeClauses(filters, if start.Some? then Some(render(start.value)) else None,
                                         if before.Some? then Some(render(before.value)) else None);
      var rows := ParseInfluxDf(reply);
      var deduped := SortAndDedup(rows);
      r := Ok(deduped);
    }

    /** `drop_all_metric`: refuse without a read client, else drop the
        measurement. */
    method DropAllMetric() returns (r: Result<()>)
      modifies this`dropped
      ensures !hasReadClient ==> r == Err(ValueError(NoReadClient)) && dropped == old(dropped)
      ensures hasReadClient ==> r == Ok(()) && dropped == old(dropped) + [metricName]
    {
      if !hasReadClient {
        return Err(ValueError(NoReadClient));
      }
      dropped := dropped + [metricName];
      r := Ok(());
    }
  }

  /** The settings `influx_io` resolves before building the adapter. */
  datatype IoConfig = IoConfig(metricName: string, timestampMult: int)

  /** `influx_io`'s argument checks: the metric name and the multiplier come
      from the keyword arguments when given, else from the class; a zero
      multiplier falls back to the default; an empty metric name is refused. */
  function ResolveConfig(classMetric: string, classMult: int, metricKw: Option<string>, multKw: Option<int>): (r: Result<IoConfig>)
    ensures var name := if metricKw.Some? then metricKw.value else classMetric;
            r.Err? <==> name == ""
    ensures r.Err? ==> r.error.ValueError?
    ensures r.Ok? ==> r.value.metricName != "" && r.value.timestampMult != 0
    ensures var mult := if multKw.Some? then multKw.value else classMult;
            r.Ok? ==> (mult != 0 ==> r.value.timestampMult == mult)
                      && (mult == 0 ==> r.value.timestampMult == DefaultTimestampMult)
  {
    var name := if metricKw.Some? then metricKw.value else classMetric;
    var mult := if multKw.Some? then multKw.value else classMult;
    if name == "" then Err(ValueError("Requires metric name."))
    else Ok(IoConfig(name, if mult != 0 then mult else DefaultTimestampMult))
  }

  /** `OutputModel.influx_io`: both clients are always supplied (a missing one
      is built by its factory), so the adapter it returns can read. */
  method InfluxIo(schema: seq<FieldDesc>, classMetric: string, classMult: int, metricKw: Option<string>, multKw: Option<int>)
    returns (r: Result<ModelIO>)
    ensures r.Err? <==> ResolveConfig(classMetric, classMult, metricKw, multKw).Err?
    ensures r.Err? ==> r.error == ResolveConfig(classMetric, classMult, metricKw, multKw).error
    ensures r.Ok? ==>
              var cfg := ResolveConfig(classMetric, classMult, metricKw, multKw).value;
              && fresh(r.value)
              && r.value.metricName == cfg.metricName && r.value.timestampMult == cfg.timestampMult
              && r.value.hasReadClient
              && r.value.tags == TagsOf(schema, "") && r.value.timestampField == LastTimestamp(schema, "", "")
  {
    var cfg := ResolveConfig(classMetric, classMult, metricKw, multKw);
    if cfg.Err? {
      return Err(cfg.error);
    }
    var io := new ModelIO(cfg.value.metricName, schema, cfg.value.timestampMult, true);
    r := Ok(io);
  }
}
