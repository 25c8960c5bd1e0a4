/** The flattener: collapses a nested string-keyed structure into one flat
    mapping whose keys are the paths to the leaves, joined by a separator. */
module Flatten {
  import opened Values

  /** A serialised value: a scalar leaf or a nested mapping, whose entries are
      kept in insertion order as Python dicts keep them. */
  datatype Tree = Leaf(value: Scalar) | Node(children: seq<(string, Tree)>)

  /** The key of a child of `parent`: the child's own key at the top level. */
  function JoinKey(parent: string, key: string, sep: string): string
  {
    if parent != "" then parent + sep + key else key
  }

  /** The (key, leaf) items of every leaf in entry order, before `dict` merges
      repeated keys. (`flatten` in base.py splices in nested results that are
      already merged; the final mapping is the same, see `FlattenDict`.) */
  function FlatItems(es: seq<(string, Tree)>, parent: string, sep: string): seq<(string, Scalar)>
    decreases es
  {
    if es == [] then []
    else FlatItems(es[..|es| - 1], parent, sep) + EntryItems(es[|es| - 1], parent, sep)
  }

  function EntryItems(e: (string, Tree), parent: string, sep: string): seq<(string, Scalar)>
    decreases e
  {
    var key := JoinKey(parent, e.0, sep);
    match e.1
    case Leaf(v) => [(key, v)]
    case Node(cs) => FlatItems(cs, key, sep)
  }

  /** `dict(items)`: each key once, holding the value of its last item. */
  function ToMap(items: seq<(string, Scalar)>): map<string, Scalar>
  {
    if items == [] then map[]
    else
      var last := items[|items| - 1];
      ToMap(items[..|items| - 1])[last.0 := last.1]
  }

  /** What `flatten(d, parent_key, sep)` returns. */
  function Flatten(es: seq<(string, Tree)>, parent: string, sep: string): map<string, Scalar>
  {
    ToMap(FlatItems(es, parent, sep))
  }

  /** The recursive loop of `flatten` in base.py. Extending the item list with the items of a
      nested result and appending one pair are map overrides here: `dict` keeps
      the value of the last item per key, so the final mapping is the same. */
  method FlattenDict(es: seq<(string, Tree)>, parent: string, sep: string) returns (d: map<string, Scalar>)
    ensures d == Flatten(es, parent, sep)
    decreases Node(es)
  {
    d := map[];
    var i := 0;
    while i < |es|
      invariant 0 <= i <= |es|
      invariant d == ToMap(FlatItems(es[..i], parent, sep))
      decreases |es| - i
    {
      var (k, v) := es[i];
      var newKey := if parent != "" then parent + sep + k else k;
      assert es[..i + 1][..i] == es[..i];
      ToMapAppend(FlatItems(es[..i], parent, sep), EntryItems(es[i], parent, sep));
      match v {
        case Node(cs) =>
          assert es[i] in es && es[i].1 == Node(cs);
          var sub := FlattenDict(cs, newKey, sep);
          d := d + sub;
        case Leaf(x) =>
          d := d[newKey := x];
      }
      i := i + 1;
    }
    assert es[..|es|] == es;
  }

  /** Overriding with a later batch of items is the same as taking them all. */
  lemma {:induction false} ToMapAppend(a: seq<(string, Scalar)>, b: seq<(string, Scalar)>)
    ensures ToMap(a + b) == ToMap(a) + ToMap(b)
  {
    if b == [] {
      assert a + b == a;
    } else {
      var b' := b[..|b| - 1];
      assert (a + b)[..|a + b| - 1] == a + b';
      ToMapAppend(a, b');
    }
  }

  /** A key is in `dict(items)` exactly when some item carries it. */
  lemma {:induction false} ToMapKeys(items: seq<(string, Scalar)>, k: string)
    ensures k in ToMap(items) <==> exists i :: 0 <= i < |items| && items[i].0 == k
  {
    if items != [] {
      var init := items[..|items| - 1];
      ToMapKeys(init, k);
      if exists i :: 0 <= i < |init| && init[i].0 == k {
        var i :| 0 <= i < |init| && init[i].0 == k;
        assert items[i] == init[i];
      }
      if exists i :: 0 <= i < |items| && items[i].0 == k {
        var i :| 0 <= i < |items| && items[i].0 == k;
        if i < |init| {
          assert init[i] == items[i];
        }
      }
    }
  }

  /** On a key collision the item produced later wins. */
  lemma {:induction false} ToMapLastWins(items: seq<(string, Scalar)>, j: nat)
    requires j < |items|
    requires forall k :: j < k < |items| ==> items[k].0 != items[j].0
    ensures items[j].0 in ToMap(items) && ToMap(items)[items[j].0] == items[j].1
  {
    if j < |items| - 1 {
      var init := items[..|items| - 1];
      forall k | j < k < |init| ensures init[k].0 != init[j].0 {
        assert init[k] == items[k];
      }
      ToMapLastWins(init, j);
    }
  }

  // ---- an independent description: the paths to the leaves ----

  /** Every leaf below `es` with the keys leading to it, left to right. */
  function LeafPaths(es: seq<(string, Tree)>): seq<(seq<string>, Scalar)>
    decreases es
  {
    if es == [] then []
    else LeafPaths(es[..|es| - 1]) + EntryPaths(es[|es| - 1])
  }

  function EntryPaths(e: (string, Tree)): seq<(seq<string>, Scalar)>
    decreases e
  {
    match e.1
    case Leaf(v) => [([e.0], v)]
    case Node(cs) =>
      var ps := LeafPaths(cs);
      seq(|ps|, i requires 0 <= i < |ps| => ([e.0] + ps[i].0, ps[i].1))
  }

  /** Keys k1..kn joined below `parent`: `k1+sep+...+kn` at the top level. */
  function JoinPath(parent: string, path: seq<string>, sep: string): string
    decreases path
  {
    if path == [] then parent
    else JoinPath(JoinKey(parent, path[0], sep), path[1..], sep)
  }

  function PathItems(ps: seq<(seq<string>, Scalar)>, parent: string, sep: string): seq<(string, Scalar)>
  {
    seq(|ps|, i requires 0 <= i < |ps| => (JoinPath(parent, ps[i].0, sep), ps[i].1))
  }

  /** The flattened items are exactly the leaves, in order, each under its
      joined path. */
  lemma {:induction false} FlatItemsArePaths(es: seq<(string, Tree)>, parent: string, sep: string)
    ensures FlatItems(es, parent, sep) == PathItems(LeafPaths(es), parent, sep)
    decreases es
  {
    if es != [] {
      var init := es[..|es| - 1];
      FlatItemsArePaths(init, parent, sep);
      EntryItemsArePaths(es[|es| - 1], parent, sep);
      var a, b := LeafPaths(init), EntryPaths(es[|es| - 1]);
      assert PathItems(a + b, parent, sep) == PathItems(a, parent, sep) + PathItems(b, parent, sep);
    }
  }

  lemma {:induction false} EntryItemsArePaths(e: (string, Tree), parent: string, sep: string)
    ensures EntryItems(e, parent, sep) == PathItems(EntryPaths(e), parent, sep)
    decreases e
  {
    match e.1
    case Leaf(v) =>
      assert [e.0][1..] == [];
      assert JoinPath(parent, [e.0], sep) == JoinPath(JoinKey(parent, e.0, sep), [], sep);
    case Node(cs) =>
      var key := JoinKey(parent, e.0, sep);
      FlatItemsArePaths(cs, key, sep);
      var ps := LeafPaths(cs);
      forall i | 0 <= i < |ps|
        ensures JoinPath(parent, [e.0] + ps[i].0, sep) == JoinPath(key, ps[i].0, sep)
      {
        assert ([e.0] + ps[i].0)[1..] == ps[i].0;
      }
  }

  /** A leaf reached by keys k1..kn appears in the result under their joined
      path; it holds that leaf's value unless a later leaf has the same path. */
  lemma LeafAppears(es: seq<(string, Tree)>, parent: string, sep: string, j: nat)
    requires j < |LeafPaths(es)|
    ensures JoinPath(parent, LeafPaths(es)[j].0, sep) in Flatten(es, parent, sep)
    ensures (forall k :: j < k < |LeafPaths(es)| ==>
               JoinPath(parent, LeafPaths(es)[k].0, sep) != JoinPath(parent, LeafPaths(es)[j].0, sep))
            ==> Flatten(es, parent, sep)[JoinPath(parent, LeafPaths(es)[j].0, sep)] == LeafPaths(es)[j].1
  {
    FlatItemsArePaths(es, parent, sep);
    var items := FlatItems(es, parent, sep);
    var key := JoinPath(parent, LeafPaths(es)[j].0, sep);
    ToMapKeys(items, key);
    assert items[j].0 == key;
    if forall k :: j < k < |LeafPaths(es)| ==> JoinPath(parent, LeafPaths(es)[k].0, sep) != key {
      forall k | j < k < |items| ensures items[k].0 != items[j].0 {
        assert items[k].0 == JoinPath(parent, LeafPaths(es)[k].0, sep);
      }
      ToMapLastWins(items, j);
    }
  }

  /** Every key of the result is the joined path of some leaf. */
  lemma KeysArePaths(es: seq<(string, Tree)>, parent: string, sep: string, key: string)
    requires key in Flatten(es, parent, sep)
    ensures exists j :: 0 <= j < |LeafPaths(es)| && JoinPath(parent, LeafPaths(es)[j].0, sep) == key
  {
    FlatItemsArePaths(es, parent, sep);
    var items := FlatItems(es, parent, sep);
    ToMapKeys(items, key);
    var j :| 0 <= j < |items| && items[j].0 == key;
    assert JoinPath(parent, LeafPaths(es)[j].0, sep) == key;
  }

  /** A mapping that is already flat (all leaves, distinct keys, as a dict's
      keys are) comes back unchanged from the top level. */
  lemma FlatInputUnchanged(es: seq<(string, Tree)>, sep: string)
    requires forall i :: 0 <= i < |es| ==> es[i].1.Leaf?
    requires forall i, j :: 0 <= i < j < |es| ==> es[i].0 != es[j].0
    ensures Flatten(es, "", sep).Keys == set i | 0 <= i < |es| :: es[i].0
    ensures forall i :: 0 <= i < |es| ==> Flatten(es, "", sep)[es[i].0] == es[i].1.value
  {
    var items := FlatItems(es, "", sep);
    FlatLeavesItems(es, sep);
    forall key ensures key in Flatten(es, "", sep) <==> key in set i | 0 <= i < |es| :: es[i].0 {
      ToMapKeys(items, key);
      if key in set i | 0 <= i < |es| :: es[i].0 {
        var i :| 0 <= i < |es| && es[i].0 == key;
        assert items[i].0 == key;
      }
    }
    forall i | 0 <= i < |es| ensures Flatten(es, "", sep)[es[i].0] == es[i].1.value {
      ToMapLastWins(items, i);
    }
  }

  lemma {:induction false} FlatLeavesItems(es: seq<(string, Tree)>, sep: string)
    requires forall i :: 0 <= i < |es| ==> es[i].1.Leaf?
    ensures |FlatItems(es, "", sep)| == |es|
    ensures forall i :: 0 <= i < |es| ==> FlatItems(es, "", sep)[i] == (es[i].0, es[i].1.value)
  {
    if es != [] {
      var init := es[..|es| - 1];
      FlatLeavesItems(init, sep);
    }
  }
}
