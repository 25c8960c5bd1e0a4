/** The read-query strings the adapter sends to the time-series store. They are
    assembled by plain interpolation: filter values are not escaped. */
module Query {
  import opened Values

  /** `sep.join(parts)`. */
  function Join(parts: seq<string>, sep: string): string
  {
    if |parts| == 0 then ""
    else if |parts| == 1 then parts[0]
    else Join(parts[..|parts| - 1], sep) + sep + parts[|parts| - 1]
  }

  /** A joined string is empty only when there is nothing to join or the one
      part is itself empty. */
  lemma JoinEmptyIff(parts: seq<string>, sep: string)
    requires sep != ""
    ensures Join(parts, sep) == "" <==> parts == [] || parts == [""]
  {
    if |parts| >= 2 {
      var init := Join(parts[..|parts| - 1], sep);
      assert |init + sep + parts[|parts| - 1]| >= |sep|;
    }
  }

  /** Appending a part adds one separator and the part. */
  lemma JoinAppend(parts: seq<string>, sep: string, last: string)
    requires parts != []
    ensures Join(parts + [last], sep) == Join(parts, sep) + sep + last
  {
    assert (parts + [last])[..|parts|] == parts;
  }

  // ---- integers as Python's `str(n)` renders them ----

  function DigitChar(d: nat): char
    requires d < 10
  {
    "0123456789"[d]
  }

  function NatToString(n: nat): string
  {
    if n < 10 then [DigitChar(n)] else NatToString(n / 10) + [DigitChar(n % 10)]
  }

  function IntToString(n: int): string
  {
    if n < 0 then "-" + NatToString(-n) else NatToString(n)
  }

  predicate IsDigit(c: char) { '0' <= c <= '9' }

  /** The value of a string of decimal digits. */
  function DecimalValue(s: string): int
    requires forall i :: 0 <= i < |s| ==> IsDigit(s[i])
  {
    if s == [] then 0
    else DecimalValue(s[..|s| - 1]) * 10 + ((s[|s| - 1] as int) - ('0' as int))
  }

  /** Reading a rendered integer back: an optional minus sign, then digits. */
  function ParseInt(s: string): Option<int>
  {
    if |s| > 0 && s[0] == '-' then
      (if forall i :: 1 <= i < |s| ==> IsDigit(s[i]) then Some(-DecimalValue(s[1..])) else None)
    else if forall i :: 0 <= i < |s| ==> IsDigit(s[i]) then Some(DecimalValue(s))
    else None
  }

  lemma {:induction false} NatToStringDigits(n: nat)
    ensures |NatToString(n)| > 0
    ensures forall i :: 0 <= i < |NatToString(n)| ==> IsDigit(NatToString(n)[i])
    ensures DecimalValue(NatToString(n)) == n
  {
    if n >= 10 {
      NatToStringDigits(n / 10);
      var s := NatToString(n);
      assert s[..|s| - 1] == NatToString(n / 10);
    }
  }

  /** `str(n)` is non-empty, ends in a digit and reads back as `n`. */
  lemma IntToStringRoundTrip(n: int)
    ensures |IntToString(n)| > 0 && IsDigit(IntToString(n)[|IntToString(n)| - 1])
    ensures ParseInt(IntToString(n)) == Some(n)
  {
    if n < 0 {
      NatToStringDigits(-n);
      assert IntToString(n)[1..] == NatToString(-n);
    } else {
      NatToStringDigits(n);
    }
  }

  // ---- the pieces of a query ----

  /** `order` lists every element of `s` once: an iteration order of the set. */
  predicate Enumerates(order: seq<string>, s: set<string>)
  {
    && (forall i, j :: 0 <= i < j < |order| ==> order[i] != order[j])
    && (set x | x in order) == s
  }

  lemma EnumeratesAppend(order: seq<string>, s: set<string>, t: string)
    requires Enumerates(order, s) && t !in s
    ensures Enumerates(order + [t], s + {t})
  {
    assert forall x :: x in order + [t] <==> x in order || x == t;
    forall i, j | 0 <= i < j < |order| + 1 ensures (order + [t])[i] != (order + [t])[j] {
      if j == |order| {
        assert order[i] in s;
      }
    }
  }

  /** An enumeration has one entry per element. */
  lemma {:induction false} EnumeratesLength(order: seq<string>, s: set<string>)
    requires Enumerates(order, s)
    ensures |order| == |s|
  {
    if order != [] {
      var init, last := order[..|order| - 1], order[|order| - 1];
      var s' := set x | x in init;
      assert Enumerates(init, s');
      EnumeratesLength(init, s');
      assert last !in s';
      assert order == init + [last];
      assert s == s' + {last};
    }
  }

  /** An enumeration is empty, or the single empty name, exactly when the set is. */
  lemma EnumeratesSmall(order: seq<string>, s: set<string>)
    requires Enumerates(order, s)
    ensures order == [] <==> s == {}
    ensures order == [""] <==> s == {""}
  {
    EnumeratesLength(order, s);
    if order != [] {
      assert order[0] in s;
    }
    if s == {""} {
      assert order[0] in s;
      assert order == [order[0]];
    }
  }

  /** `tags_str_query`: the tag columns appended to `SELECT *`, in the order the
      tag set is iterated. */
  function TagsStr(order: seq<string>): string
  {
    var s := Join(order, ",");
    if s != "" then "," + s else ""
  }

  /** The tag suffix is empty exactly when there are no tags (or the only tag
      has an empty name); otherwise it is a comma followed by the joined tags. */
  lemma TagsStrShape(order: seq<string>)
    ensures TagsStr(order) == "" <==> order == [] || order == [""]
    ensures TagsStr(order) != "" ==> TagsStr(order) == "," + Join(order, ",")
  {
    JoinEmptyIff(order, ",");
  }

  /** One equality filter: `"key"='value'`. */
  function EqTerm(key: string, value: string): string
  {
    "\"" + key + "\"='" + value + "'"
  }

  /** The equality filters in keyword-argument order. */
  function EqTerms(filters: seq<(string, string)>): (r: seq<string>)
  {
    seq(|filters|, i requires 0 <= i < |filters| => EqTerm(filters[i].0, filters[i].1))
  }

  function AfterTerm(rendered: string): string { "time >= '" + rendered + "'" }

  function BeforeTerm(rendered: string): string { "time < '" + rendered + "'" }

  /** The WHERE condition: always true without clauses, else their conjunction. */
  function WhereStr(clauses: seq<string>): string
  {
    if clauses == [] then "1=1" else Join(clauses, " AND ")
  }

  /** Adding a clause conjoins it after the existing ones, or replaces the
      always-true condition when there were none. */
  lemma WhereAppend(clauses: seq<string>, term: string)
    ensures WhereStr(clauses + [term]) ==
            if clauses == [] then term else WhereStr(clauses) + " AND " + term
  {
    if clauses != [] {
      JoinAppend(clauses, " AND ", term);
    }
  }

  /** The WHERE condition is never empty: an empty filter set gives `1=1`. */
  lemma WhereNonEmpty(clauses: seq<string>)
    requires forall i :: 0 <= i < |clauses| ==> clauses[i] != ""
    ensures WhereStr(clauses) != ""
  {
    if clauses != [] {
      JoinEmptyIff(clauses, " AND ");
    }
  }

  /** The clauses of `get_timeseries`: the equality filters, then the start
      of the time window, then its end, each rendered bound given as text. */
  function TimeClauses(filters: seq<(string, string)>, after: Option<string>, before: Option<string>): seq<string>
  {
    EqTerms(filters)
    + (if after.Some? then [AfterTerm(after.value)] else [])
    + (if before.Some? then [BeforeTerm(before.value)] else [])
  }

  /** The first character of a join is that of its first part. */
  lemma {:induction false} JoinHead(parts: seq<string>, sep: string)
    requires parts != [] && parts[0] != ""
    ensures Join(parts, sep) != "" && Join(parts, sep)[0] == parts[0][0]
  {
    if |parts| >= 2 {
      JoinHead(parts[..|parts| - 1], sep);
    }
  }

  /** The equality terms come first, in filter order; the `time >=` term
      follows them, and the `time <` term is last. The condition is `1=1`
      exactly when there is neither a filter nor a time bound. */
  lemma TimeClausesOrder(filters: seq<(string, string)>, after: Option<string>, before: Option<string>)
    ensures var c := TimeClauses(filters, after, before);
            && |c| == |filters| + (if after.Some? then 1 else 0) + (if before.Some? then 1 else 0)
            && (forall i :: 0 <= i < |filters| ==> c[i] == EqTerm(filters[i].0, filters[i].1))
            && (after.Some? ==> c[|filters|] == AfterTerm(after.value))
            && (before.Some? ==> c[|c| - 1] == BeforeTerm(before.value))
    ensures WhereStr(TimeClauses(filters, after, before)) == "1=1" <==>
            filters == [] && after.None? && before.None?
  {
    var c := TimeClauses(filters, after, before);
    if c != [] {
      assert c[0][0] == '"' || c[0][0] == 't';
      JoinHead(c, " AND ");
    }
  }

  /** The query of `get_latest_unique_rows`: the latest point of every series. */
  function LatestQuery(tagsStr: string, metric: string, filters: seq<(string, string)>): string
  {
    "SELECT *" + tagsStr + " FROM \"" + metric + "\" WHERE " + WhereStr(EqTerms(filters))
    + " GROUP BY * ORDER BY DESC LIMIT 1"
  }

  /** `LIMIT n` only for a truthy limit. */
  function LimitStr(limit: Option<int>): string
  {
    if Truthy(limit) then "LIMIT " + IntToString(limit.value) else ""
  }

  /** The query of `get_timeseries`. */
  function TimeseriesQuery(tagsStr: string, metric: string, clauses: seq<string>, limit: Option<int>): string
  {
    TimeseriesHead(tagsStr, metric, clauses) + LimitStr(limit)
  }

  /** Everything before the limit, ending in the blank after `DESC`. */
  function TimeseriesHead(tagsStr: string, metric: string, clauses: seq<string>): string
  {
    "SELECT *" + tagsStr + " FROM \"" + metric + "\" WHERE " + WhereStr(clauses) + " ORDER BY DESC "
  }

  lemma SplitTail(a: string, b: string)
    ensures (a + b)[..|a|] == a && (a + b)[|a|..] == b
  {
  }

  /** The time-series query carries a LIMIT exactly when the limit is truthy:
      without one it ends in the blank after `DESC`, with one it ends in the
      digits of the limit, which read back as the limit. */
  lemma TimeseriesLimit(tagsStr: string, metric: string, clauses: seq<string>, limit: Option<int>)
    ensures var q := TimeseriesQuery(tagsStr, metric, clauses, limit);
            q[|q| - 1] == ' ' <==> !Truthy(limit)
    ensures var q := TimeseriesQuery(tagsStr, metric, clauses, limit);
            Truthy(limit) ==>
              var n := |IntToString(limit.value)|;
              |q| >= n + 6 && q[|q| - n - 6..|q| - n] == "LIMIT " && ParseInt(q[|q| - n..]) == limit
  {
    var head := TimeseriesHead(tagsStr, metric, clauses);
    assert head[|head| - 1] == ' ';
    if Truthy(limit) {
      IntToStringRoundTrip(limit.value);
      var digits := IntToString(limit.value);
      var q := TimeseriesQuery(tagsStr, metric, clauses, limit);
      assert q == (head + "LIMIT ") + digits;
      SplitTail(head + "LIMIT ", digits);
      SplitTail(head, "LIMIT ");
    }
  }
}
