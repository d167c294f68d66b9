/** Grouped aggregation: a map from group keys to one scratchpad per aggregate. */
module GroupBy {
  import opened Wrappers
  import opened Aggregates

  type Row = seq<SValue>

  /** One aggregate of the select list and its argument. */
  datatype Select = Select(call: Call, arg: Row -> SValue)

  type Groups = map<string, seq<Pad>>

  /** The scratchpads of a new group. */
  function Inits(selects: seq<Select>): (pads: seq<Pad>)
    ensures |pads| == |selects|
  {
    seq(|selects|, j requires 0 <= j < |selects| => Init(selects[j].call))
  }

  /** The arguments of one aggregate over the rows of one group. */
  ghost function Args(rows: seq<Row>, keyOf: Row -> string, key: string, arg: Row -> SValue): seq<SValue> {
    if rows == [] then []
    else
      Args(rows[..|rows| - 1], keyOf, key, arg)
      + (if keyOf(rows[|rows| - 1]) == key then [arg(rows[|rows| - 1])] else [])
  }

  lemma {:induction false} ArgsConcat(a: seq<Row>, b: seq<Row>, keyOf: Row -> string, key: string, arg: Row -> SValue)
    ensures Args(a + b, keyOf, key, arg) == Args(a, keyOf, key, arg) + Args(b, keyOf, key, arg)
  {
    if b == [] {
      assert a + b == a;
    } else {
      assert (a + b)[..|a + b| - 1] == a + b[..|b| - 1];
      ArgsConcat(a, b[..|b| - 1], keyOf, key, arg);
    }
  }

  ghost predicate HasKey(rows: seq<Row>, keyOf: Row -> string, key: string) {
    exists r :: 0 <= r < |rows| && keyOf(rows[r]) == key
  }

  lemma {:induction false} HasKeyConcat(a: seq<Row>, b: seq<Row>, keyOf: Row -> string, key: string)
    ensures HasKey(a + b, keyOf, key) <==> HasKey(a, keyOf, key) || HasKey(b, keyOf, key)
  {
    if HasKey(a, keyOf, key) {
      var r :| 0 <= r < |a| && keyOf(a[r]) == key;
      assert keyOf((a + b)[r]) == key;
    }
    if HasKey(b, keyOf, key) {
      var r :| 0 <= r < |b| && keyOf(b[r]) == key;
      assert keyOf((a + b)[|a| + r]) == key;
    }
  }

  /** What grouping some rows means, independently of how they are visited: a group per key that
      occurs, and per aggregate the fold over its rows. */
  ghost predicate Groups?(g: Groups, rows: seq<Row>, keyOf: Row -> string, selects: seq<Select>) {
    && (forall k :: k in g <==> HasKey(rows, keyOf, k))
    && (forall k :: k in g ==> |g[k]| == |selects|)
    && (forall k, j :: k in g && 0 <= j < |selects| ==>
          g[k][j] == Fold(Init(selects[j].call), Args(rows, keyOf, k, selects[j].arg)))
  }

  /** The number a scratchpad holds. */
  ghost function Num(p: Pad): real {
    if p.CountPad? then p.n as real else p.val
  }

  /** The number an aggregate has over the rows of a group. */
  ghost function Total(rows: seq<Row>, keyOf: Row -> string, key: string, s: Select): real {
    Num(Fold(Init(s.call), Args(rows, keyOf, key, s.arg)))
  }

  lemma {:induction false} TotalConcat(a: seq<Row>, b: seq<Row>, keyOf: Row -> string, key: string, s: Select)
    ensures Total(a + b, keyOf, key, s) == Total(a, keyOf, key, s) + Total(b, keyOf, key, s)
    ensures Total([], keyOf, key, s) == 0.0
  {
    var x, y := Args(a, keyOf, key, s.arg), Args(b, keyOf, key, s.arg);
    ArgsConcat(a, b, keyOf, key, s.arg);
    CountConcat(x, y);
    FoldMeans(Init(s.call), x);
    FoldMeans(Init(s.call), y);
    FoldMeans(Init(s.call), x + y);
  }

  lemma {:induction false} NoRowsNoTotal(rows: seq<Row>, keyOf: Row -> string, key: string, s: Select)
    requires !HasKey(rows, keyOf, key)
    ensures Total(rows, keyOf, key, s) == 0.0
  {
    NoRowsNoArgs(rows, keyOf, key, s.arg);
  }

  lemma {:induction false} NoRowsNoArgs(rows: seq<Row>, keyOf: Row -> string, key: string, arg: Row -> SValue)
    requires !HasKey(rows, keyOf, key)
    ensures Args(rows, keyOf, key, arg) == []
  {
    if rows != [] {
      var n := |rows| - 1;
      assert keyOf(rows[n]) != key;
      assert !HasKey(rows[..n], keyOf, key) by {
        forall r | 0 <= r < n ensures keyOf(rows[..n][r]) != key {
          assert rows[..n][r] == rows[r];
        }
      }
      NoRowsNoArgs(rows[..n], keyOf, key, arg);
    }
  }

  class GroupByExpression {
    const selects: seq<Select>
    const keyOf: Row -> string
    var groups: Groups

    constructor (selects: seq<Select>, keyOf: Row -> string)
      ensures this.selects == selects && this.keyOf == keyOf && groups == map[]
    {
      this.selects, this.keyOf, groups := selects, keyOf, map[];
    }

    method AllocInstances() returns (pads: seq<Pad>)
      ensures pads == Inits(selects)
    {
      pads := [];
      for j := 0 to |selects|
        invariant pads == Inits(selects)[..j]
      {
        pads := pads + [Init(selects[j].call)];
      }
    }

    /** Add one row to its group, creating the group when it is the first. */
    method NextRow(row: Row, ghost rows: seq<Row>)
      requires Groups?(groups, rows, keyOf, selects)
      modifies this`groups
      ensures Groups?(groups, rows + [row], keyOf, selects)
    {
      var key := keyOf(row);
      var pads;
      if key in groups {
        pads := groups[key];
      } else {
        pads := AllocInstances();
      }
      ghost var before := pads;
      for j := 0 to |selects|
        invariant |pads| == |selects|
        invariant forall i :: 0 <= i < j ==> pads[i] == Accumulate(before[i], selects[i].arg(row))
        invariant forall i :: j <= i < |selects| ==> pads[i] == before[i]
      {
        pads := pads[j := Accumulate(pads[j], selects[j].arg(row))];
      }
      RowAdded(groups, rows, row, keyOf, selects, pads);
      groups := groups[key := pads];
    }

    /** Group all rows of a source. */
    method AccumulateRows(rows: seq<Row>)
      requires groups == map[]
      modifies this`groups
      ensures Groups?(groups, rows, keyOf, selects)
    {
      for r := 0 to |rows|
        invariant Groups?(groups, rows[..r], keyOf, selects)
      {
        assert rows[..r + 1] == rows[..r] + [rows[r]];
        NextRow(rows[r], rows[..r]);
      }
      assert rows[..|rows|] == rows;
    }

    method MergeGroup(dst: seq<Pad>, src: seq<Pad>) returns (pads: seq<Pad>)
      requires |dst| == |src| == |selects|
      ensures |pads| == |selects| && forall j :: 0 <= j < |selects| ==> pads[j] == Merge(dst[j], src[j])
    {
      pads := dst;
      for j := 0 to |selects|
        invariant |pads| == |selects|
        invariant forall i :: 0 <= i < j ==> pads[i] == Merge(dst[i], src[i])
        invariant forall i :: j <= i < |selects| ==> pads[i] == dst[i]
      {
        pads := pads[j := Merge(pads[j], src[j])];
      }
    }

    /** Merge the groups of a shard into this one, visiting them in an arbitrary order. */
    method MergeResult(src: Groups)
      requires forall k :: k in src ==> |src[k]| == |selects|
      requires forall k :: k in groups ==> |groups[k]| == |selects|
      modifies this`groups
      ensures groups == Merged(old(groups), src, selects)
    {
      hide Merged, Restrict;
      var todo := src.Keys;
      ghost var was := groups;
      NothingMerged(was, src, selects);
      while todo != {}
        invariant todo <= src.Keys
        invariant groups == Merged(was, Restrict(src, src.Keys - todo), selects)
      {
        var key :| key in todo;
        KeyNotMerged(was, src, selects, src.Keys - todo, key);
        var pads;
        if key in groups {
          pads := groups[key];
        } else {
          pads := AllocInstances();
        }
        pads := MergeGroup(pads, src[key]);
        assert (src.Keys - (todo - {key})) - {key} == src.Keys - todo;
        groups := groups[key := pads];
        todo := todo - {key};
        MergedOne(was, src, selects, src.Keys - todo, key, groups, pads);
      }
      RestrictAll(src);
      assert src.Keys - todo == src.Keys;
    }
  }

  lemma {:induction false} RowAdded(g: Groups, rows: seq<Row>, row: Row, keyOf: Row -> string, selects: seq<Select>, pads: seq<Pad>)
    requires Groups?(g, rows, keyOf, selects) && |pads| == |selects|
    requires var before := if keyOf(row) in g then g[keyOf(row)] else Inits(selects);
             forall j :: 0 <= j < |selects| ==> pads[j] == Accumulate(before[j], selects[j].arg(row))
    ensures Groups?(g[keyOf(row) := pads], rows + [row], keyOf, selects)
  {
    var after, all, key := g[keyOf(row) := pads], rows + [row], keyOf(row);
    assert all[..|all| - 1] == rows;
    forall k ensures k in after <==> HasKey(all, keyOf, k) {
      HasKeyConcat(rows, [row], keyOf, k);
      assert HasKey([row], keyOf, k) <==> k == key by {
        assert keyOf([row][0]) == key;
      }
    }
    forall k, j | k in after && 0 <= j < |selects|
      ensures after[k][j] == Fold(Init(selects[j].call), Args(all, keyOf, k, selects[j].arg))
    {
      var vs := Args(rows, keyOf, k, selects[j].arg);
      assert Args(all, keyOf, k, selects[j].arg) == vs + (if k == key then [selects[j].arg(row)] else []);
      if k != key {
        assert vs + [] == vs;
      } else {
        if key !in g {
          NoRowsNoArgs(rows, keyOf, key, selects[j].arg);
        }
        FoldAppend(Init(selects[j].call), vs, selects[j].arg(row));
      }
    }
  }

  /** Merging: every key of either side, states added up, a fresh state where a key is new. */
  ghost function Merged(dst: Groups, src: Groups, selects: seq<Select>): Groups {
    map k | k in dst.Keys + src.Keys ::
      if k !in src then dst[k]
      else MergedPads(if k in dst then dst[k] else Inits(selects), src[k])
  }

  ghost function MergedPads(a: seq<Pad>, b: seq<Pad>): (pads: seq<Pad>)
    ensures |pads| == |a|
  {
    seq(|a|, j requires 0 <= j < |a| => if j < |b| then Merge(a[j], b[j]) else a[j])
  }

  /** The groups of some keys. */
  ghost function Restrict(g: Groups, keys: set<string>): Groups {
    map k | k in keys && k in g :: g[k]
  }

  lemma {:induction false} RestrictAll(g: Groups)
    ensures Restrict(g, g.Keys) == g
  {
  }

  lemma {:induction false} NothingMerged(dst: Groups, src: Groups, selects: seq<Select>)
    ensures Merged(dst, Restrict(src, src.Keys - src.Keys), selects) == dst
  {
  }

  lemma {:induction false} KeyNotMerged(dst: Groups, src: Groups, selects: seq<Select>, done: set<string>, key: string)
    requires key !in done
    ensures var g := Merged(dst, Restrict(src, done), selects);
            (key in g <==> key in dst) && (key in dst ==> g[key] == dst[key])
  {
  }

  lemma {:induction false} MergedOne(was: Groups, src: Groups, selects: seq<Select>, done: set<string>, key: string, now: Groups, pads: seq<Pad>)
    requires key in done && done <= src.Keys
    requires |src[key]| == |pads| == |selects| && (key in was ==> |was[key]| == |selects|)
    requires var before := if key in was then was[key] else Inits(selects);
             forall j :: 0 <= j < |selects| ==> pads[j] == Merge(before[j], src[key][j])
    requires now == Merged(was, Restrict(src, done - {key}), selects)[key := pads]
    ensures now == Merged(was, Restrict(src, done), selects)
  {
    assert pads == MergedPads(if key in was then was[key] else Inits(selects), src[key]);
  }
}
