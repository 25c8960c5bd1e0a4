/** The schema classifier: which declared fields are tags and which one is the
    timestamp. A schema is the statically declared table of its fields, in
    declaration order, instead of runtime reflection over a pydantic class. */
module Schema {

  /** One declared field: its name and the two markers its `Field(...)` extras
      may carry (`telegraf_tag`, `telegraf_timestamp`). */
  datatype FieldDesc = FieldDesc(name: string, isTag: bool, isTimestamp: bool)

  /** The tag names of `fields`, each under `prefix`. */
  function TagsOf(fields: seq<FieldDesc>, prefix: string): set<string>
  {
    if fields == [] then {}
    else
      var f := fields[|fields| - 1];
      TagsOf(fields[..|fields| - 1], prefix) + (if f.isTag then {prefix + f.name} else {})
  }

  /** The timestamp field name after walking `fields` in order, starting from
      `current`: every marked field overwrites the previous value. */
  function LastTimestamp(fields: seq<FieldDesc>, prefix: string, current: string): string
  {
    if fields == [] then current
    else
      var f := fields[|fields| - 1];
      if f.isTimestamp then prefix + f.name
      else LastTimestamp(fields[..|fields| - 1], prefix, current)
  }

  /** A name is a tag exactly when some declared field marked as a tag has that
      name once prefixed. */
  lemma {:induction false} TagsOfIff(fields: seq<FieldDesc>, prefix: string, t: string)
    ensures t in TagsOf(fields, prefix) <==>
            exists i :: 0 <= i < |fields| && fields[i].isTag && t == prefix + fields[i].name
  {
    if fields != [] {
      var init := fields[..|fields| - 1];
      TagsOfIff(init, prefix, t);
      if exists i :: 0 <= i < |fields| && fields[i].isTag && t == prefix + fields[i].name {
        var i :| 0 <= i < |fields| && fields[i].isTag && t == prefix + fields[i].name;
        if i < |init| {
          assert init[i] == fields[i];
        }
      }
      if exists i :: 0 <= i < |init| && init[i].isTag && t == prefix + init[i].name {
        var i :| 0 <= i < |init| && init[i].isTag && t == prefix + init[i].name;
        assert fields[i] == init[i];
      }
    }
  }

  /** The last marked field in declaration order wins. */
  lemma {:induction false} LastTimestampIsLastMarked(fields: seq<FieldDesc>, prefix: string, current: string, j: nat)
    requires j < |fields| && fields[j].isTimestamp
    requires forall k :: j < k < |fields| ==> !fields[k].isTimestamp
    ensures LastTimestamp(fields, prefix, current) == prefix + fields[j].name
  {
    if j < |fields| - 1 {
      var init := fields[..|fields| - 1];
      forall k | j < k < |init| ensures !init[k].isTimestamp {
        assert init[k] == fields[k];
      }
      LastTimestampIsLastMarked(init, prefix, current, j);
    }
  }

  /** With no marked field the timestamp name stays what it was. */
  lemma {:induction false} LastTimestampUnmarked(fields: seq<FieldDesc>, prefix: string, current: string)
    requires forall k :: 0 <= k < |fields| ==> !fields[k].isTimestamp
    ensures LastTimestamp(fields, prefix, current) == current
  {
    if fields != [] {
      var init := fields[..|fields| - 1];
      forall k | 0 <= k < |init| ensures !init[k].isTimestamp {
        assert init[k] == fields[k];
      }
      LastTimestampUnmarked(init, prefix, current);
    }
  }
}
