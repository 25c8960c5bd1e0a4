/** Post-processing of what the store returns: the series frames are
    concatenated, sorted by timestamp and cut down to one row per timestamp. */
module Rows {
  import opened Values

  /** One returned row: its column values. */
  type Row = map<string, Scalar>

  /** A row with its index, the row timestamp in nanoseconds. */
  type TimedRow = (int, Row)

  /** The reply of the store: one frame of rows per series name. */
  type ResultSet = seq<(string, seq<TimedRow>)>

  /** `pd.concat` of the frames, in the order the result set lists them. */
  function ConcatFrames(result: ResultSet): seq<TimedRow>
  {
    if result == [] then []
    else ConcatFrames(result[..|result| - 1]) + result[|result| - 1].1
  }

  /** `_parse_influx_df`: gather the frames of every series and concatenate
      them; no series gives the empty frame. */
  method ParseInfluxDf(result: ResultSet) returns (rows: seq<TimedRow>)
    ensures rows == ConcatFrames(result)
  {
    rows := [];
    var i := 0;
    while i < |result|
      invariant 0 <= i <= |result|
      invariant rows == ConcatFrames(result[..i])
    {
      assert result[..i + 1][..i] == result[..i];
      rows := rows + result[i].1;
      i := i + 1;
    }
    assert result[..|result|] == result;
  }

  /** The number of rows over all frames. */
  function TotalRows(result: ResultSet): nat
  {
    if result == [] then 0 else TotalRows(result[..|result| - 1]) + |result[|result| - 1].1|
  }

  /** Concatenation keeps every row of every frame, repeats included: the
      frame lengths add up. */
  lemma {:induction false} ConcatFramesLength(result: ResultSet)
    ensures |ConcatFrames(result)| == TotalRows(result)
  {
    if result != [] {
      ConcatFramesLength(result[..|result| - 1]);
    }
  }

  /** Concatenation keeps every row of every frame and adds none. */
  lemma {:induction false} ConcatFramesMembers(result: ResultSet, x: TimedRow)
    ensures x in ConcatFrames(result) <==> exists i :: 0 <= i < |result| && x in result[i].1
  {
    if result != [] {
      var init := result[..|result| - 1];
      ConcatFramesMembers(init, x);
      if exists i :: 0 <= i < |result| && x in result[i].1 {
        var i :| 0 <= i < |result| && x in result[i].1;
        if i < |init| {
          assert init[i] == result[i];
        }
      }
      if exists i :: 0 <= i < |init| && x in init[i].1 {
        var i :| 0 <= i < |init| && x in init[i].1;
        assert result[i] == init[i];
      }
    }
  }

  // ---- ordering and the rows of one timestamp ----

  predicate SortedByTime(s: seq<TimedRow>)
  {
    forall i, j :: 0 <= i < j < |s| ==> s[i].0 <= s[j].0
  }

  predicate StrictlyIncreasing(s: seq<TimedRow>)
  {
    forall i, j :: 0 <= i < j < |s| ==> s[i].0 < s[j].0
  }

  /** The timestamps that occur. */
  function Times(s: seq<TimedRow>): set<int>
  {
    set x | x in s :: x.0
  }

  lemma TimesAppend(s: seq<TimedRow>, x: TimedRow)
    ensures Times(s + [x]) == Times(s) + {x.0}
  {
    assert forall y :: y in s + [x] <==> y in s || y == x;
  }

  /** The rows with timestamp `t`, in their order in `s`. */
  function WithTime(s: seq<TimedRow>, t: int): seq<TimedRow>
  {
    if s == [] then []
    else WithTime(s[..|s| - 1], t) + (if s[|s| - 1].0 == t then [s[|s| - 1]] else [])
  }

  lemma {:induction false} WithTimeEmptyIff(s: seq<TimedRow>, t: int)
    ensures WithTime(s, t) == [] <==> t !in Times(s)
  {
    if s != [] {
      var init := s[..|s| - 1];
      WithTimeEmptyIff(init, t);
      assert s == init + [s[|s| - 1]];
      assert Times(s) == Times(init) + {s[|s| - 1].0};
    }
  }

  /** The first row of `s` with timestamp `t`. */
  function FirstWithTime(s: seq<TimedRow>, t: int): TimedRow
    requires t in Times(s)
  {
    WithTimeEmptyIff(s, t);
    WithTime(s, t)[0]
  }

  /** Appending rows never changes which row comes first for a timestamp that
      already occurs. */
  lemma WithTimeExtend(s: seq<TimedRow>, x: TimedRow, t: int)
    ensures WithTime(s + [x], t) == WithTime(s, t) + (if x.0 == t then [x] else [])
  {
    assert (s + [x])[..|s|] == s;
  }

  /** `pandas` `sort_index`, taken as a stable sort: insert each row after every
      row whose timestamp is not larger. */
  function Insert(s: seq<TimedRow>, x: TimedRow): seq<TimedRow>
  {
    if s == [] || s[|s| - 1].0 <= x.0 then s + [x]
    else Insert(s[..|s| - 1], x) + [s[|s| - 1]]
  }

  function SortByTime(s: seq<TimedRow>): seq<TimedRow>
  {
    if s == [] then [] else Insert(SortByTime(s[..|s| - 1]), s[|s| - 1])
  }

  lemma {:induction false} InsertPermutes(s: seq<TimedRow>, x: TimedRow)
    ensures multiset(Insert(s, x)) == multiset(s) + multiset{x}
  {
    if !(s == [] || s[|s| - 1].0 <= x.0) {
      var init := s[..|s| - 1];
      InsertPermutes(init, x);
      assert s == init + [s[|s| - 1]];
    }
  }

  lemma {:induction false} InsertSorted(s: seq<TimedRow>, x: TimedRow)
    requires SortedByTime(s)
    ensures SortedByTime(Insert(s, x))
  {
    if !(s == [] || s[|s| - 1].0 <= x.0) {
      var init, last := s[..|s| - 1], s[|s| - 1];
      InsertSorted(init, x);
      InsertPermutes(init, x);
      var ins := Insert(init, x);
      forall k | 0 <= k < |ins| ensures ins[k].0 <= last.0 {
        assert ins[k] in multiset(ins);
        if ins[k] != x {
          assert ins[k] in multiset(init);
        }
      }
    }
  }

  /** Inserting keeps, for every timestamp, the rows of that timestamp in the
      order they had: the sort is stable. */
  lemma {:induction false} InsertStable(s: seq<TimedRow>, x: TimedRow, t: int)
    ensures WithTime(Insert(s, x), t) == WithTime(s, t) + (if x.0 == t then [x] else [])
  {
    if s == [] || s[|s| - 1].0 <= x.0 {
      WithTimeExtend(s, x, t);
    } else {
      var init, last := s[..|s| - 1], s[|s| - 1];
      InsertStable(init, x, t);
      WithTimeExtend(Insert(init, x), last, t);
      WithTimeExtend(init, last, t);
      assert s == init + [last];
    }
  }

  /** The sorted rows: ordered by time, a permutation of the input, and for
      each timestamp the rows of that timestamp in input order. */
  lemma {:induction false} SortByTimeSpec(s: seq<TimedRow>)
    ensures SortedByTime(SortByTime(s))
    ensures multiset(SortByTime(s)) == multiset(s)
    ensures forall t :: WithTime(SortByTime(s), t) == WithTime(s, t)
  {
    if s != [] {
      var init, last := s[..|s| - 1], s[|s| - 1];
      SortByTimeSpec(init);
      InsertSorted(SortByTime(init), last);
      InsertPermutes(SortByTime(init), last);
      assert s == init + [last];
      forall t ensures WithTime(SortByTime(s), t) == WithTime(s, t) {
        InsertStable(SortByTime(init), last, t);
      }
    }
  }

  lemma TimesOfPermutation(a: seq<TimedRow>, b: seq<TimedRow>)
    requires multiset(a) == multiset(b)
    ensures Times(a) == Times(b)
  {
    forall t | t in Times(a) ensures t in Times(b) {
      var x :| x in a && x.0 == t;
      assert x in multiset(b);
    }
    forall t | t in Times(b) ensures t in Times(a) {
      var x :| x in b && x.0 == t;
      assert x in multiset(a);
    }
  }

  /** `r` is `s` with some rows left out: the kept rows are in input order. */
  predicate IsSubsequence(r: seq<TimedRow>, s: seq<TimedRow>)
    decreases |s|
  {
    if r == [] then true
    else if s == [] then false
    else IsSubsequence(r, s[..|s| - 1])
         || (r[|r| - 1] == s[|s| - 1] && IsSubsequence(r[..|r| - 1], s[..|s| - 1]))
  }

  /** A subsequence of a time-sorted sequence is time-sorted. */
  lemma {:induction false} SubsequenceSorted(r: seq<TimedRow>, s: seq<TimedRow>)
    requires IsSubsequence(r, s) && SortedByTime(s)
    ensures SortedByTime(r)
    decreases |s|
  {
    if r != [] {
      var s' := s[..|s| - 1];
      assert SortedByTime(s');
      if IsSubsequence(r, s') {
        SubsequenceSorted(r, s');
      } else {
        var r' := r[..|r| - 1];
        SubsequenceSorted(r', s');
        SubsequenceMembers(r', s');
        forall a, b | 0 <= a < b < |r| ensures r[a].0 <= r[b].0 {
          if b == |r| - 1 {
            assert r[a] == r'[a] && r'[a] in s';
          } else {
            assert r[a] == r'[a] && r[b] == r'[b];
          }
        }
      }
    }
  }

  /** Every row of a subsequence is a row of the sequence. */
  lemma {:induction false} SubsequenceMembers(r: seq<TimedRow>, s: seq<TimedRow>)
    requires IsSubsequence(r, s)
    ensures forall x :: x in r ==> x in s
    decreases |s|
  {
    if r != [] {
      var s' := s[..|s| - 1];
      assert s == s' + [s[|s| - 1]];
      if IsSubsequence(r, s') {
        SubsequenceMembers(r, s');
      } else {
        SubsequenceMembers(r[..|r| - 1], s');
        assert r == r[..|r| - 1] + [r[|r| - 1]];
      }
    }
  }

  /** The reference filter of `duplicated(keep="first")`: a row stays exactly
      when no earlier row has its timestamp. */
  function Dedup(s: seq<TimedRow>): seq<TimedRow>
  {
    if s == [] then []
    else
      var init, last := s[..|s| - 1], s[|s| - 1];
      Dedup(init) + (if last.0 in Times(init) then [] else [last])
  }

  /** What keeping the first row per timestamp of `s[..i]` has produced. */
  ghost predicate KeptFirst(s: seq<TimedRow>, i: nat, r: seq<TimedRow>)
  {
    && i <= |s|
    && |r| <= i
    && Times(s[..i]) == Times(r)
    && (forall a, b :: 0 <= a < b < |r| ==> r[a].0 != r[b].0)
    && (forall j :: 0 <= j < |r| ==> WithTime(s[..i], r[j].0) != [] && r[j] == WithTime(s[..i], r[j].0)[0])
    && IsSubsequence(r, s[..i])
  }

  /** The rows of each timestamp in `s[..i + 1]`: those of `s[..i]`, then `s[i]`. */
  lemma WithTimeNext(s: seq<TimedRow>, i: nat)
    requires i < |s|
    ensures Times(s[..i + 1]) == Times(s[..i]) + {s[i].0}
    ensures forall t :: WithTime(s[..i + 1], t) == WithTime(s[..i], t) + (if s[i].0 == t then [s[i]] else [])
  {
    assert s[..i + 1] == s[..i] + [s[i]];
    TimesAppend(s[..i], s[i]);
    forall t ensures WithTime(s[..i + 1], t) == WithTime(s[..i], t) + (if s[i].0 == t then [s[i]] else []) {
      WithTimeExtend(s[..i], s[i], t);
    }
  }

  /** A row whose timestamp was seen is dropped. */
  lemma KeepFirstSkip(s: seq<TimedRow>, i: nat, r: seq<TimedRow>)
    requires KeptFirst(s, i, r) && i < |s| && s[i].0 in Times(r)
    ensures KeptFirst(s, i + 1, r)
  {
    WithTimeNext(s, i);
    forall j | 0 <= j < |r| ensures WithTime(s[..i + 1], r[j].0) != [] && r[j] == WithTime(s[..i + 1], r[j].0)[0] {
      assert WithTime(s[..i], r[j].0) != [];
    }
    assert s[..i + 1][..i] == s[..i];
  }

  /** A row with a new timestamp is kept, after the rows kept so far. */
  lemma KeepFirstTake(s: seq<TimedRow>, i: nat, r: seq<TimedRow>)
    requires KeptFirst(s, i, r) && i < |s| && s[i].0 !in Times(r)
    ensures KeptFirst(s, i + 1, r + [s[i]])
  {
    var x := s[i];
    WithTimeNext(s, i);
    WithTimeEmptyIff(s[..i], x.0);
    TimesAppend(r, x);
    forall j | 0 <= j < |r| ensures r[j].0 != x.0 {
      assert r[j].0 in Times(r);
    }
    assert s[..i + 1][..i] == s[..i] && (r + [x])[..|r|] == r;
    assert IsSubsequence(r + [x], s[..i + 1]);
  }

  lemma KeptFirstDone(s: seq<TimedRow>, r: seq<TimedRow>)
    requires KeptFirst(s, |s|, r)
    ensures |r| <= |s|
    ensures Times(r) == Times(s)
    ensures forall a, b :: 0 <= a < b < |r| ==> r[a].0 != r[b].0
    ensures forall j :: 0 <= j < |r| ==> r[j].0 in Times(s) && r[j] == FirstWithTime(s, r[j].0)
    ensures SortedByTime(s) ==> StrictlyIncreasing(r)
    ensures IsSubsequence(r, s)
  {
    assert s[..|s|] == s;
    forall j | 0 <= j < |r| ensures r[j].0 in Times(s) && r[j] == FirstWithTime(s, r[j].0) {
      WithTimeEmptyIff(s, r[j].0);
    }
    if SortedByTime(s) {
      SubsequenceSorted(r, s);
    }
  }

  /** `df[~df.index.duplicated(keep="first")]`: keep a row only when its
      timestamp has not been seen before. The mask keeps the input order. */
  method KeepFirst(s: seq<TimedRow>) returns (r: seq<TimedRow>)
    ensures r == Dedup(s)
    ensures IsSubsequence(r, s)
    ensures |r| <= |s|
    ensures Times(r) == Times(s)
    ensures forall a, b :: 0 <= a < b < |r| ==> r[a].0 != r[b].0
    ensures forall j :: 0 <= j < |r| ==> r[j].0 in Times(s) && r[j] == FirstWithTime(s, r[j].0)
    ensures SortedByTime(s) ==> StrictlyIncreasing(r)
  {
    r := [];
    var seen: set<int> := {};
    var i := 0;
    while i < |s|
      invariant KeptFirst(s, i, r)
      invariant seen == Times(r)
      invariant r == Dedup(s[..i])
    {
      assert s[..i + 1][..i] == s[..i];
      if s[i].0 !in seen {
        KeepFirstTake(s, i, r);
        TimesAppend(r, s[i]);
        r := r + [s[i]];
        seen := seen + {s[i].0};
      } else {
        KeepFirstSkip(s, i, r);
      }
      i := i + 1;
    }
    KeptFirstDone(s, r);
    assert s[..|s|] == s;
  }

  /** The read post-processing of `get_timeseries`: sort by timestamp, then
      drop repeated timestamps. The rows come out strictly increasing in time,
      one per distinct input timestamp, each the first row with that timestamp
      in the order the store returned them. */
  method SortAndDedup(rows: seq<TimedRow>) returns (r: seq<TimedRow>)
    ensures StrictlyIncreasing(r)
    ensures Times(r) == Times(rows)
    ensures |r| <= |rows|
    ensures forall j :: 0 <= j < |r| ==> r[j].0 in Times(rows) && r[j] == FirstWithTime(rows, r[j].0)
  {
    var sorted := SortByTime(rows);
    SortByTimeSpec(rows);
    TimesOfPermutation(sorted, rows);
    assert |sorted| == |multiset(sorted)| == |rows|;
    r := KeepFirst(sorted);
  }
}
