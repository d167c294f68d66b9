/**
  The round trip of a table: what is added to a builder and read back by a materializer is
  the same list of records, up to the order of children with different ids.
  */
module RoundTrip {
  import opened Wrappers
  import opened Messages
  import opened Columns
  import opened Shredding
  import opened TableBuilder
  import opened Assembly
  import opened Materializer

  ghost function Children(ms: seq<Message>, id: nat): (occ: seq<Message>)
    ensures occ == Occ(ms, id)
    ensures forall k :: 0 <= k < |occ| ==> occ[k] in ms
  {
    OccIds(ms, id);
    Occ(ms, id)
  }

  lemma {:induction false} OccIdsAll(ms: seq<Message>)
    ensures forall id: nat, k :: 0 <= k < |Occ(ms, id)| ==> Occ(ms, id)[k].id == id
  {
    forall id: nat, k | 0 <= k < |Occ(ms, id)| ensures Occ(ms, id)[k].id == id {
      OccIds(ms, id);
      assert Occ(ms, id)[k] in Occ(ms, id);
    }
  }

  /** Equality up to the order of children with different ids. */
  ghost predicate Equivalent(a: seq<Message>, b: seq<Message>)
    decreases a
  {
    forall id: nat ::
      && |Children(a, id)| == |Occ(b, id)|
      && forall k :: 0 <= k < |Occ(b, id)| ==> EquivalentElem(Children(a, id)[k], Occ(b, id)[k])
  }

  ghost predicate EquivalentElem(a: Message, b: Message)
    decreases a
  {
    if a.Value? then a == b
    else b.Object? && a.id == b.id && Equivalent(a.children, b.children)
  }

  /** `out` is what a table gives back for `ms`: the occurrences of every field of the schema in
      their order, with what the columns keep of their scalars, and nothing else. */
  ghost predicate Restored(fields: seq<Field>, out: seq<Message>, ms: seq<Message>)
    decreases fields, 2
  {
    && (forall id: nat :: !HasId(fields, id) ==> Occ(out, id) == [])
    && (forall i :: 0 <= i < |fields| ==> RestoredField(fields[i], Occ(out, fields[i].id), Occ(ms, fields[i].id)))
  }

  ghost predicate RestoredField(f: Field, outs: seq<Message>, occ: seq<Message>)
    decreases f, 1
  {
    |outs| == |occ| && forall k :: 0 <= k < |occ| ==> RestoredElem(f, outs[k], occ[k])
  }

  ghost predicate RestoredElem(f: Field, out: Message, o: Message)
    decreases f, 0
  {
    && out.id == o.id
    && match f
       case LeafField(_, _, _, _, kind) => out.Value? && o.Value? && Keeps(kind, o.scalar, out.scalar)
       case ObjectField(_, _, _, _, fields) => out.Object? && o.Object? && Restored(fields, out.children, o.children)
  }

  /** A record written with the kinds of the schema and no field the schema does not know. */
  ghost predicate Exact(fields: seq<Field>, ms: seq<Message>)
    decreases fields
  {
    && (forall id: nat :: !HasId(fields, id) ==> Occ(ms, id) == [])
    && (forall i, k :: 0 <= i < |fields| && 0 <= k < |Occ(ms, fields[i].id)| ==>
          ExactElem(fields[i], Occ(ms, fields[i].id)[k]))
  }

  ghost predicate ExactElem(f: Field, m: Message)
    decreases f
  {
    match f
    case LeafField(_, _, _, _, kind) => m.Value? && HasKind(kind, m.scalar)
    case ObjectField(_, _, _, _, fields) => m.Object? && Exact(fields, m.children)
  }

  /** Such a record comes back equal, up to the order of children with different ids. */
  lemma {:induction false} ExactIsRestored(fields: seq<Field>, out: seq<Message>, ms: seq<Message>)
    requires Exact(fields, ms) && Restored(fields, out, ms)
    ensures Equivalent(out, ms)
    decreases fields
  {
    forall id: nat
      ensures |Children(out, id)| == |Occ(ms, id)|
      ensures forall k :: 0 <= k < |Occ(ms, id)| ==> EquivalentElem(Children(out, id)[k], Occ(ms, id)[k])
    {
      if HasId(fields, id) {
        var i :| 0 <= i < |fields| && fields[i].id == id;
        var f, outs, occ := fields[i], Occ(out, id), Occ(ms, id);
        assert RestoredField(f, outs, occ);
        forall k | 0 <= k < |occ| ensures EquivalentElem(outs[k], occ[k]) {
          assert RestoredElem(f, outs[k], occ[k]) && ExactElem(f, occ[k]);
          if f.ObjectField? {
            ExactIsRestored(f.fields, outs[k].children, occ[k].children);
          }
        }
      }
    }
  }

  /** Every object type has a leaf below it. */
  predicate HasLeaves(fields: seq<Field>)
    decreases fields
  {
    forall i :: 0 <= i < |fields| && fields[i].ObjectField? ==>
      fields[i].fields != [] && HasLeaves(fields[i].fields)
  }

  lemma {:induction false} SomePath(fields: seq<Field>, f: Field) returns (q: Path)
    requires f in fields && HasLeaves(fields)
    ensures IsPath(fields, [f] + q)
    decreases f
  {
    if f.LeafField? {
      q := [];
    } else {
      var i :| 0 <= i < |fields| && fields[i] == f;
      var g := f.fields[0];
      var rest := SomePath(f.fields, g);
      q := [g] + rest;
      assert ([f] + q)[1..] == q;
    }
  }

  /** All columns together determine the record. */
  lemma {:induction false} AllColumnsMatch(out: seq<Message>, fields: seq<Field>, cols: set<Path>, ms: seq<Message>)
    requires HasLeaves(fields) && Matches(out, fields, cols, ms)
    requires forall p :: IsPath(fields, p) ==> p in cols
    ensures Restored(fields, out, ms)
    decreases fields, 1
  {
    OccIdsAll(out);
    OccIdsAll(ms);
    forall i | 0 <= i < |fields| ensures RestoredField(fields[i], Occ(out, fields[i].id), Occ(ms, fields[i].id)) {
      var id := fields[i].id;
      var q := SomePath(fields, fields[i]);
      BelowMember(cols, fields[i], q);
      assert MatchesField(Occ(out, id), fields[i], Below(cols, fields[i]), Occ(ms, id));
      forall k | 0 <= k < |Occ(ms, id)| ensures RestoredElem(fields[i], Occ(out, id)[k], Occ(ms, id)[k]) {
        AllColumnsMatchElem(Occ(out, id), fields, i, cols, Occ(ms, id), k);
      }
    }
  }

  lemma {:induction false} AllColumnsMatchElem(
      outs: seq<Message>, fields: seq<Field>, i: nat, cols: set<Path>, occ: seq<Message>, k: nat)
    requires HasLeaves(fields) && i < |fields|
    requires |outs| == |occ| && k < |occ| && outs[k].id == occ[k].id
    requires MatchesElem(outs[k], fields[i], Below(cols, fields[i]), occ[k])
    requires forall p :: IsPath(fields, p) ==> p in cols
    ensures RestoredElem(fields[i], outs[k], occ[k])
    decreases fields, 0
  {
    var f := fields[i];
    if f.ObjectField? {
      forall p | IsPath(f.fields, p) ensures p in Below(cols, f) {
        BelowMember(cols, f, p);
        assert ([f] + p)[1..] == p && IsPath(fields, [f] + p);
      }
      AllColumnsMatch(outs[k].children, f.fields, Below(cols, f), occ[k].children);
    }
  }

  lemma {:induction false} StreamAppend(path: Path, records: seq<seq<Message>>, ms: seq<Message>)
    requires path != []
    ensures Stream(path, records + [ms]) == Stream(path, records) + Block(path, 0, 0, 0, ms)
  {
    if records == [] {
      assert ([] + [ms])[1..] == [];
    } else {
      assert (records + [ms])[1..] == records[1..] + [ms];
      StreamAppend(path, records[1..], ms);
    }
  }

  /** The builder's columns hold some records. */
  ghost predicate Filled(schema: seq<Field>, cols: map<string, Stripe>, records: seq<seq<Message>>) {
    forall p :: IsPath(schema, p) ==>
      ColumnName("", p) in cols && cols[ColumnName("", p)] == StripeOf(p, records)
  }

  lemma {:induction false} FilledHolds(schema: seq<Field>, table: map<string, Stripe>, records: seq<seq<Message>>)
    requires Filled(schema, table, records)
    ensures Holds(schema, table, records)
    ensures forall p :: IsPath(schema, p) ==> Chosen(ColumnName("", p), table, {})
  {
  }

  lemma {:induction false} FilledAtFirst(schema: seq<Field>)
    requires DistinctNames("", schema)
    ensures Filled(schema, Created("", 0, 0, schema, map[]), [])
  {
    forall p | IsPath(schema, p)
      ensures ColumnName("", p) in Created("", 0, 0, schema, map[])
      ensures Created("", 0, 0, schema, map[])[ColumnName("", p)] == StripeOf(p, [])
    {
      CreatedLevels("", 0, 0, schema, map[], p);
    }
  }

  lemma {:induction false} FilledAfter(schema: seq<Field>, cols: map<string, Stripe>, records: seq<seq<Message>>, m: Message)
    requires DistinctNames("", schema) && Filled(schema, cols, records)
    requires ShredFields(0, 0, 0, m, "", schema).error.None? && m.Object?
    ensures Filled(schema, Apply(cols, ShredFields(0, 0, 0, m, "", schema).writes), records + [m.children])
  {
    forall p | IsPath(schema, p)
      ensures ColumnName("", p) in Apply(cols, ShredFields(0, 0, 0, m, "", schema).writes)
      ensures Apply(cols, ShredFields(0, 0, 0, m, "", schema).writes)[ColumnName("", p)]
              == StripeOf(p, records + [m.children])
    {
      RecordAppendsBlocks(cols, m, schema, p);
      StreamAppend(p, records, m.children);
      AppendAllConcat(Stripe(MaxRep(p, 0), MaxDef(p, 0), [], [], []), Stream(p, records), Block(p, 0, 0, 0, m.children));
    }
  }

  /** Writing all records: the table holds, column by column, the blocks of every record. */
  method WriteTable(schema: seq<Field>, records: seq<seq<Message>>) returns (table: map<string, Stripe>)
    requires DistinctNames("", schema)
    requires schema != [] && forall k :: 0 <= k < |records| ==> Conforms(schema, records[k], false)
    ensures Filled(schema, table, records) && table.Keys == NamesAll("", schema)
  {
    hide Created, Apply, ShredFields, Conforms, Filled, NamesAll, DistinctNames;
    var builder := new CSTableBuilder(schema);
    CreatedKeys("", 0, 0, schema, map[]);
    FilledAtFirst(schema);
    var i := 0;
    assert records[..0] == [];
    while i < |records|
      invariant 0 <= i <= |records| && builder.numRecords == i
      invariant builder.schema == schema && builder.Valid() && fresh(builder) && fresh(builder.columns.Values)
      invariant NamesAll("", schema) == builder.columns.Keys
      invariant Filled(schema, builder.Contents(), records[..i])
    {
      var m := Object(0, records[i]);
      FieldsAccepted(0, 0, 0, m, "", schema);
      FilledAfter(schema, builder.Contents(), records[..i], m);
      var error := builder.AddRecord(m);
      assert records[..i + 1] == records[..i] + [records[i]];
      i := i + 1;
    }
    assert records[..i] == records;
    table := builder.Write();
  }

  /**
    The round trip. Of every record not skipped all that the columns keep comes back, which is
    an equal record if its scalars have the kinds of the schema (`ExactIsRestored`), whatever
    order the columns are visited in, and skipping others does not disturb it.
    */
  method WriteAndRead(schema: seq<Field>, records: seq<seq<Message>>, skip: seq<bool>)
    returns (out: seq<Option<seq<Message>>>)
    requires DistinctIds(schema) && DistinctNames("", schema) && HasLeaves(schema) && schema != []
    requires forall k :: 0 <= k < |records| ==> Conforms(schema, records[k], true)
    requires |skip| == |records|
    ensures |out| == |records|
    ensures forall k :: 0 <= k < |records| ==>
              if skip[k] then out[k] == None else out[k].Some? && Restored(schema, out[k].value, records[k])
  {
    hide Conforms, Restored, Filled;
    forall k | 0 <= k < |records| ensures Conforms(schema, records[k], false) {
      OnceConforms(schema, records[k]);
    }
    var table := WriteTable(schema, records);
    out := ReadRecords(schema, table, |records|, skip, records);
  }

  /** Reading or skipping all records of a table. */
  method ReadRecords(schema: seq<Field>, table: map<string, Stripe>, n: nat, skip: seq<bool>,
                     ghost records: seq<seq<Message>>)
    returns (out: seq<Option<seq<Message>>>)
    requires DistinctIds(schema) && DistinctNames("", schema) && HasLeaves(schema)
    requires forall k :: 0 <= k < |records| ==> Conforms(schema, records[k], true)
    requires Filled(schema, table, records) && |skip| == |records| == n
    ensures |out| == |records|
    ensures forall k :: 0 <= k < |records| ==>
              if skip[k] then out[k] == None else out[k].Some? && Restored(schema, out[k].value, records[k])
  {
    hide Matches, Conforms, Restored, IsPath, PathsOf, Filled, RecordMaterializer.Visiting;
    FilledHolds(schema, table, records);
    var reader := new RecordMaterializer(schema, table, {}, records);
    ghost var cols := PathsOf(reader.columns, reader.columns.Keys);
    ghost var columns := reader.columns;
    out := [];
    while |out| < n
      invariant |out| <= |records|
      invariant reader.Valid() && reader.schema == schema && reader.records == records[|out|..]
      invariant reader.columns == columns
      invariant fresh(reader) && fresh(reader.columns.Values) && fresh(reader.Readers())
      invariant forall k :: 0 <= k < |out| ==>
                  if skip[k] then out[k] == None else out[k].Some? && Restored(schema, out[k].value, records[k])
    {
      var k := |out|;
      assert records[k..][0] == records[k] && records[k..][1..] == records[k + 1..];
      if skip[k] {
        reader.SkipRecord();
        out := out + [None];
      } else {
        var record := reader.NextRecord();
        AllColumnsMatch(record, schema, cols, records[k]);
        out := out + [Some(record)];
      }
    }
  }

  lemma {:induction false} OnceConforms(fields: seq<Field>, ms: seq<Message>)
    requires Conforms(fields, ms, true)
    ensures Conforms(fields, ms, false)
    decreases fields, 0
  {
    forall i | 0 <= i < |fields| ensures ConformsField(fields[i], Occ(ms, fields[i].id), false) {
      assert ConformsField(fields[i], Occ(ms, fields[i].id), true);
      forall k | 0 <= k < |Occ(ms, fields[i].id)| ensures ConformsElem(fields[i], Occ(ms, fields[i].id)[k], false) {
        assert ConformsElem(fields[i], Occ(ms, fields[i].id)[k], true);
        if fields[i].ObjectField? && fields[i].fields != [] {
          OnceConforms(fields[i].fields, Occ(ms, fields[i].id)[k].children);
        }
      }
    }
  }
}
