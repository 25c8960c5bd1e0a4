/** The point writer's specification: from a record and the classified schema
    to the (metric, values, tags, timestamp) point handed to the write sink. */
module Writer {
  import opened Values
  import opened Flatten

  /** The default multiplier from the schema's timestamp unit to nanoseconds
      (milliseconds). */
  const DefaultTimestampMult: int := 1000000

  /** The separator `metric` flattens with (the default of `flatten`). */
  const Sep: string := "_"

  /** A record as the writer sees it: its sparse serialisation (only the fields
      that were set and differ from their default, in declaration order) and
      its attributes, every field's current value whether set or defaulted. */
  datatype Record = Record(sparse: seq<(string, Tree)>, attrs: map<string, Scalar>)

  /** One metric point. */
  datatype Point = Point(metric: string, values: map<string, Scalar>, tags: map<string, Scalar>, timestamp: Option<Scalar>)

  /** The flattened sparse data of a record. */
  function Data(rec: Record): map<string, Scalar>
  {
    Flatten.Flatten(rec.sparse, "", Sep)
  }

  /** `pop_data(key)` read-only: the data entry if there is one, else the
      attribute, else `AttributeError`. */
  function Lookup(data: map<string, Scalar>, attrs: map<string, Scalar>, key: string): Result<Scalar>
  {
    if key in data then Ok(data[key])
    else if key in attrs then Ok(attrs[key])
    else Err(AttributeError)
  }

  /** `s * n` for a Python string and integer. */
  function Repeat(s: string, n: int): string
    decreases n
  {
    if n <= 0 then "" else Repeat(s, n - 1) + s
  }

  /** `timestamp_mult * value`, with Python's meaning of `*` for each kind of
      value: numbers multiply, `True`/`False` count as 1/0, a string repeats and
      `None` raises. */
  function Scale(mult: int, v: Scalar): Result<Scalar>
  {
    match v
    case Int(i) => Ok(Int(mult * i))
    case Real(x) => Ok(Real(mult as real * x))
    case Bool(b) => Ok(Int(if b then mult else 0))
    case Str(s) => Ok(Str(Repeat(s, mult)))
    case Null => Err(TypeError)
  }

  /** Every tag is resolvable: from the data or, failing that, the attributes. */
  predicate TagsResolvable(data: map<string, Scalar>, attrs: map<string, Scalar>, tags: set<string>)
  {
    forall t :: t in tags ==> t in data || t in attrs
  }

  /** The point `metric` emits, or the exception it raises before emitting. */
  function BuildPoint(metric: string, tags: set<string>, tsField: string, mult: int, rec: Record): Result<Point>
  {
    var data := Data(rec);
    if !TagsResolvable(data, rec.attrs, tags) then Err(AttributeError)
    else
      var tagMap := map t | t in tags :: if t in data then data[t] else rec.attrs[t];
      var rest := data - tags;
      if tsField == "" then Ok(Point(metric, rest, tagMap, None))
      else
        match Lookup(rest, rec.attrs, tsField)
        case Err(e) => Err(e)
        case Ok(v) =>
          match Scale(mult, v)
          case Err(e) => Err(e)
          case Ok(ts) => Ok(Point(metric, rest - {tsField}, tagMap, Some(ts)))
  }

  /** The emitted tag map has exactly the schema's tags as keys; each value
      comes from the flattened data when present there, else from the record's
      attribute, so a tag left at its default is not lost. */
  lemma PointTags(metric: string, tags: set<string>, tsField: string, mult: int, rec: Record)
    requires BuildPoint(metric, tags, tsField, mult, rec).Ok?
    ensures var p := BuildPoint(metric, tags, tsField, mult, rec).value;
            && p.tags.Keys == tags
            && (forall t :: t in tags && t in Data(rec) ==> p.tags[t] == Data(rec)[t])
            && (forall t :: t in tags && t !in Data(rec) ==> t in rec.attrs && p.tags[t] == rec.attrs[t])
  {
  }

  /** The emitted values are the flattened data minus every tag and minus the
      timestamp field, unchanged otherwise: no tag is ever a value, and the
      values, the consumed tags and the timestamp partition the data. Without
      a timestamp field nothing but the tags is removed, not even a key `""`. */
  lemma PointValues(metric: string, tags: set<string>, tsField: string, mult: int, rec: Record)
    requires BuildPoint(metric, tags, tsField, mult, rec).Ok?
    ensures var p := BuildPoint(metric, tags, tsField, mult, rec).value;
            && p.metric == metric
            && p.values.Keys == Data(rec).Keys - tags - (if tsField != "" then {tsField} else {})
            && (forall k :: k in p.values ==> p.values[k] == Data(rec)[k])
            && p.values.Keys !! p.tags.Keys
            && Data(rec).Keys == p.values.Keys + (Data(rec).Keys * tags) + (Data(rec).Keys * {tsField} - {""})
  {
  }

  /** The timestamp is the multiplier times the timestamp field's value (taken
      from the data unless a tag already consumed it, else from the attribute)
      when a timestamp field is declared, and absent otherwise. */
  lemma PointTimestamp(metric: string, tags: set<string>, tsField: string, mult: int, rec: Record)
    requires BuildPoint(metric, tags, tsField, mult, rec).Ok?
    ensures var p := BuildPoint(metric, tags, tsField, mult, rec).value;
            && (p.timestamp.None? <==> tsField == "")
            && (tsField != "" ==>
                  var v := if tsField in Data(rec) && tsField !in tags then Data(rec)[tsField] else rec.attrs[tsField];
                  && (tsField in Data(rec) - tags || tsField in rec.attrs)
                  && Scale(mult, v) == Ok(p.timestamp.value))
  {
  }

  /** `metric` raises exactly when a tag is neither in the data nor an
      attribute, or the timestamp field is declared and cannot be found or
      is `None`. */
  lemma PointErrors(metric: string, tags: set<string>, tsField: string, mult: int, rec: Record)
    ensures BuildPoint(metric, tags, tsField, mult, rec).Err? <==>
            || (exists t :: t in tags && t !in Data(rec) && t !in rec.attrs)
            || (tsField != "" && Lookup(Data(rec) - tags, rec.attrs, tsField).Err?)
            || (tsField != "" && Lookup(Data(rec) - tags, rec.attrs, tsField) == Ok(Null))
  {
  }
}
