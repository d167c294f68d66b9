/**
  Scanning a table that was built from records: the aggregates of the scan are those of the
  values found at the leaf in the records themselves.
  */
module ScanOfRecords {
  import opened Wrappers
  import opened Messages
  import opened Columns
  import opened Shredding
  import opened Materializer
  import opened Aggregates
  import opened TableScan

  /** The values at a leaf of a record, in order. */
  ghost function LeafValues(path: Path, ms: seq<Message>): seq<Scalar>
    requires path != []
    decreases |path|, 1, 0
  {
    LeafValuesIn(path, Occ(ms, path[0].id))
  }

  ghost function LeafValuesIn(path: Path, occ: seq<Message>): seq<Scalar>
    requires path != []
    decreases |path|, 0, |occ|
  {
    if occ == [] then []
    else
      (if |path| > 1 then LeafValues(path[1..], if occ[0].Object? then occ[0].children else [])
       else if occ[0].Value? && path[0].LeafField? && Stored(path[0].kind, occ[0].scalar).Some?
            then [Stored(path[0].kind, occ[0].scalar).value]
            else [])
      + LeafValuesIn(path, occ[1..])
  }

  lemma {:induction false} DataConcat(a: seq<Entry>, b: seq<Entry>)
    ensures Data(a + b) == Data(a) + Data(b)
  {
    if a == [] {
      assert a + b == b;
    } else {
      assert (a + b)[1..] == a[1..] + b;
      DataConcat(a[1..], b);
    }
  }

  /** The values in a block are the leaf's values in the record. */
  lemma {:induction false} BlockData(path: Path, r: nat, rmax: nat, d: nat, ms: seq<Message>)
    requires path != []
    ensures Data(Block(path, r, rmax, d, ms)) == LeafValues(path, ms)
    decreases |path|, 1, 0
  {
    var occ := Occ(ms, path[0].id);
    if occ == [] {
      assert Data([Entry(r, d, None)]) == Data([Entry(r, d, None)][1..]) == [];
    } else {
      OccBlockData(path, r, RepIn(path[0], rmax), DefIn(path[0], d), occ);
    }
  }

  lemma {:induction false} OccBlockData(path: Path, r: nat, rmax: nat, d: nat, occ: seq<Message>)
    requires path != []
    ensures Data(OccBlock(path, r, rmax, d, occ)) == LeafValuesIn(path, occ)
    decreases |path|, 0, |occ|
  {
    if occ != [] {
      var first, rest := ElemBlock(path, r, rmax, d, occ[0]), OccBlock(path, rmax, rmax, d, occ[1..]);
      DataConcat(first, rest);
      OccBlockData(path, rmax, rmax, d, occ[1..]);
      if |path| > 1 {
        BlockData(path[1..], r, rmax, d, if occ[0].Object? then occ[0].children else []);
      } else {
        assert Data(first[1..]) == [];
      }
    }
  }

  /** The records of a stripe are the blocks it was built from. */
  lemma {:induction false} RecordsOfStream(schema: seq<Field>, path: Path, records: seq<seq<Message>>)
    requires IsPath(schema, path) && AllConform(schema, records)
    ensures var es := Stream(path, records);
            && Starts(es) == |records| && Peek(es) == 0
            && |Records(es)| == |records|
            && forall j :: 0 <= j < |records| ==> Records(es)[j] == Block(path, 0, 0, 0, records[j])
  {
    if records != [] {
      var es := Stream(path, records);
      StreamHead(schema, path, records);
      RecordsOfStream(schema, path, records[1..]);
      AfterShorter(es[1..]);
      forall j | 0 <= j < |records| ensures Records(es)[j] == Block(path, 0, 0, 0, records[j]) {
        if j > 0 {
          assert records[j] == records[1..][j - 1];
        }
      }
    }
  }

  lemma {:induction false} StartsAreLevelStarts(es: seq<Entry>)
    ensures Starts(es) == LevelStarts(es, 0)
  {
    if es != [] {
      StartsAreLevelStarts(es[1..]);
    }
  }

  /** A column of records that were accepted, whether or not fields occur more often than the schema
      allows: it has as many record starts as there are records, which the scan relies on, exactly if
      in none of them a field in front of the first repeated one occurs twice along the path. */
  lemma {:induction false} StreamStartsIff(path: Path, records: seq<seq<Message>>)
    requires path != []
    ensures Starts(Stream(path, records)) >= |records|
    ensures Starts(Stream(path, records)) == |records|
            <==> forall k :: 0 <= k < |records| ==> OccursOnce(path, records[k])
    decreases |records|
  {
    if records != [] {
      var first, rest := Block(path, 0, 0, 0, records[0]), Stream(path, records[1..]);
      StartsAreLevelStarts(first + rest);
      StartsAreLevelStarts(rest);
      LevelStartsConcat(first, rest, 0);
      BlockStarts(path, 0, 0, 0, records[0]);
      PartsIff(path, records[0]);
      StreamStartsIff(path, records[1..]);
      assert (forall k :: 0 <= k < |records| ==> OccursOnce(path, records[k]))
        <==> OccursOnce(path, records[0])
             && forall k :: 0 <= k < |records[1..]| ==> OccursOnce(path, records[1..][k])
      by {
        assert forall k :: 0 < k < |records| ==> records[k] == records[1..][k - 1];
      }
    }
  }

  ghost function SqlValues(toSql: Scalar -> SValue, data: seq<Scalar>): seq<SValue> {
    if data == [] then [] else [toSql(data[0])] + SqlValues(toSql, data[1..])
  }

  /** NULL entries do not matter to the aggregates. */
  lemma {:induction false} ValuesOfData(toSql: Scalar -> SValue, es: seq<Entry>)
    ensures CountOf(Values(toSql, es)) == CountOf(SqlValues(toSql, Data(es)))
    ensures SumOf(Values(toSql, es)) == SumOf(SqlValues(toSql, Data(es)))
    ensures LastNumber(Values(toSql, es)) == LastNumber(SqlValues(toSql, Data(es)))
  {
    if es != [] {
      ValuesOfData(toSql, es[1..]);
      assert Values(toSql, es)[1..] == Values(toSql, es[1..]);
      if es[0].value.Some? {
        assert Data(es)[1..] == Data(es[1..]);
      } else {
        assert Data(es) == Data(es[1..]);
      }
    }
  }

  /**
    COUNT and SUM WITHIN RECORD over a leaf, whatever its depth: the number and the numeric
    sum of the values that the record has at that leaf.
    */
  lemma {:induction false} WithinRecord(schema: seq<Field>, path: Path, records: seq<seq<Message>>, toSql: Scalar -> SValue, j: nat)
    requires IsPath(schema, path) && AllConform(schema, records) && j < |records|
    ensures |Records(Stream(path, records))| == |records|
    ensures var es := Records(Stream(path, records))[j];
            var vs := SqlValues(toSql, LeafValues(path, records[j]));
            && ColumnResult(toSql, COUNT, es) == Integer(CountOf(vs))
            && ColumnResult(toSql, SUM, es) == SumResult(vs)
  {
    RecordsOfStream(schema, path, records);
    BlockData(path, 0, 0, 0, records[j]);
    var es := Records(Stream(path, records))[j];
    ValuesOfData(toSql, es);
    GetMeans(Values(toSql, es));
  }

  ghost function AllLeafValues(path: Path, records: seq<seq<Message>>): seq<Scalar>
    requires path != []
  {
    if records == [] then [] else LeafValues(path, records[0]) + AllLeafValues(path, records[1..])
  }

  /** The same over the whole table. */
  lemma {:induction false} OverTable(path: Path, records: seq<seq<Message>>, toSql: Scalar -> SValue)
    requires path != []
    ensures var es := Stream(path, records);
            var vs := SqlValues(toSql, AllLeafValues(path, records));
            && ColumnResult(toSql, COUNT, es) == Integer(CountOf(vs))
            && ColumnResult(toSql, SUM, es) == SumResult(vs)
  {
    var es := Stream(path, records);
    StreamData(path, records);
    ValuesOfData(toSql, es);
    GetMeans(Values(toSql, es));
  }

  lemma {:induction false} StreamData(path: Path, records: seq<seq<Message>>)
    requires path != []
    ensures Data(Stream(path, records)) == AllLeafValues(path, records)
  {
    if records != [] {
      BlockData(path, 0, 0, 0, records[0]);
      DataConcat(Block(path, 0, 0, 0, records[0]), Stream(path, records[1..]));
      StreamData(path, records[1..]);
    }
  }
}
