/**
  Records to bytes and back: the table of a list of records, written to a file and read from it,
  gives back the records.
  */
module StoredTable {
  import opened Wrappers
  import opened Messages
  import opened Columns
  import opened Shredding
  import opened TableBuilder
  import opened Materializer
  import opened RoundTrip
  import B = BitPack
  import F = TableFile
  import T = TableBytes

  // ------------------------------------------------------------------
  // Types of columns
  // ------------------------------------------------------------------

  function KindsOf(prefix: string, f: Field): map<string, Kind>
    decreases f, 0
  {
    match f
    case LeafField(_, name, _, _, kind) => map[prefix + name := kind]
    case ObjectField(_, name, _, _, fields) => KindsAll(prefix + name + ".", fields)
  }

  function KindsAll(prefix: string, fields: seq<Field>): map<string, Kind>
    decreases fields, |fields|
  {
    if fields == [] then map[] else KindsOf(prefix, fields[0]) + KindsAll(prefix, fields[1..])
  }

  lemma {:induction false} KindsOfNames(prefix: string, f: Field)
    ensures KindsOf(prefix, f).Keys == Names(prefix, f)
    decreases f, 0
  {
    if f.ObjectField? {
      KindsOfAllNames(prefix + f.name + ".", f.fields);
    }
  }

  lemma {:induction false} KindsOfAllNames(prefix: string, fields: seq<Field>)
    ensures KindsAll(prefix, fields).Keys == NamesAll(prefix, fields)
    decreases fields, |fields|
  {
    if fields != [] {
      KindsOfNames(prefix, fields[0]);
      KindsOfAllNames(prefix, fields[1..]);
    }
  }

  /** The leaf at the end of a path. */
  ghost function Leaf(path: Path): Field
    requires path != []
  {
    path[|path| - 1]
  }

  lemma {:induction false} KindOfPath(prefix: string, fields: seq<Field>, path: Path)
    requires IsPath(fields, path) && DistinctNames(prefix, fields)
    ensures Leaf(path).LeafField? && ColumnName(prefix, path) in KindsAll(prefix, fields)
    ensures KindsAll(prefix, fields)[ColumnName(prefix, path)] == Leaf(path).kind
    decreases |path|, |fields|
  {
    KindsOfNames(prefix, fields[0]);
    KindsOfAllNames(prefix, fields[1..]);
    if path[0] == fields[0] {
      PathHasName(prefix, [fields[0]], path);
      if path[0].ObjectField? {
        KindOfPath(prefix + path[0].name + ".", path[0].fields, path[1..]);
        assert Leaf(path) == Leaf(path[1..]);
      }
    } else {
      assert IsPath(fields[1..], path);
      KindOfPath(prefix, fields[1..], path);
    }
  }

  /** Every column name is that of a leaf. */
  lemma {:induction false} NameHasPath(prefix: string, fields: seq<Field>, name: string)
    requires name in NamesAll(prefix, fields)
    ensures exists path :: IsPath(fields, path) && ColumnName(prefix, path) == name
    decreases fields, |fields|
  {
    if name in NamesAll(prefix, fields[1..]) {
      NameHasPath(prefix, fields[1..], name);
      var path :| IsPath(fields[1..], path) && ColumnName(prefix, path) == name;
      assert IsPath(fields, path);
    } else if fields[0].LeafField? {
      assert IsPath(fields, [fields[0]]) && ColumnName(prefix, [fields[0]]) == name;
    } else {
      NameHasPath(prefix + fields[0].name + ".", fields[0].fields, name);
      var path :| IsPath(fields[0].fields, path) && ColumnName(prefix + fields[0].name + ".", path) == name;
      var longer := [fields[0]] + path;
      assert longer[1..] == path;
      assert IsPath(fields, longer) && ColumnName(prefix, longer) == name;
    }
  }

  // ------------------------------------------------------------------
  // Values that can be stored
  // ------------------------------------------------------------------

  /** Texts are bytes and not too long. */
  ghost predicate AllStorable(ms: seq<Message>) {
    forall i :: 0 <= i < |ms| ==> Storable(ms[i])
  }

  ghost predicate Storable(m: Message) {
    match m
    case Value(_, v) => T.CanStore(v)
    case Object(_, children) => forall i :: 0 <= i < |children| ==> Storable(children[i])
  }

  /** Entries hold values of a type that can be stored. */
  ghost predicate AreEntries(kind: Kind, es: seq<Entry>) {
    forall i :: 0 <= i < |es| && es[i].value.Some? ==> HasKind(kind, es[i].value.value) && T.CanStore(es[i].value.value)
  }

  lemma {:induction false} StoredHasKind(kind: Kind, v: Scalar)
    requires T.CanStore(v) && Stored(kind, v).Some?
    ensures HasKind(kind, Stored(kind, v).value) && T.CanStore(Stored(kind, v).value)
  {
  }

  lemma {:induction false} OccStorable(ms: seq<Message>, id: nat)
    requires AllStorable(ms)
    ensures AllStorable(Occ(ms, id))
  {
    hide Storable;
    OccIds(ms, id);
    var occ := Occ(ms, id);
    forall i | 0 <= i < |occ| ensures Storable(occ[i]) {
      assert occ[i] in ms;
    }
  }

  lemma {:induction false} BlockStorable(path: Path, r: nat, rmax: nat, d: nat, ms: seq<Message>)
    requires path != [] && Leaf(path).LeafField? && AllStorable(ms)
    ensures AreEntries(Leaf(path).kind, Block(path, r, rmax, d, ms))
    decreases |path|, 2, 0
  {
    hide Storable;
    var occ := Occ(ms, path[0].id);
    if occ != [] {
      OccStorable(ms, path[0].id);
      OccBlockStorable(path, r, RepIn(path[0], rmax), DefIn(path[0], d), occ);
    }
  }

  lemma {:induction false} OccBlockStorable(path: Path, r: nat, rmax: nat, d: nat, occ: seq<Message>)
    requires path != [] && Leaf(path).LeafField? && AllStorable(occ)
    ensures AreEntries(Leaf(path).kind, OccBlock(path, r, rmax, d, occ))
    decreases |path|, 1, |occ|
  {
    hide Storable, ElemBlock;
    if occ != [] {
      ElemBlockStorable(path, r, rmax, d, occ[0]);
      OccBlockStorable(path, rmax, rmax, d, occ[1..]);
    }
  }

  lemma {:induction false} ElemBlockStorable(path: Path, r: nat, rmax: nat, d: nat, o: Message)
    requires path != [] && Leaf(path).LeafField? && Storable(o)
    ensures AreEntries(Leaf(path).kind, ElemBlock(path, r, rmax, d, o))
    decreases |path|, 0, 0
  {
    if |path| == 1 {
      if o.Value? && Stored(path[0].kind, o.scalar).Some? {
        StoredHasKind(path[0].kind, o.scalar);
      }
    } else {
      assert Leaf(path) == Leaf(path[1..]);
      BlockStorable(path[1..], r, rmax, d, if o.Object? then o.children else []);
    }
  }

  lemma {:induction false} StreamStorable(path: Path, records: seq<seq<Message>>)
    requires path != [] && Leaf(path).LeafField? && forall k :: 0 <= k < |records| ==> AllStorable(records[k])
    ensures AreEntries(Leaf(path).kind, Stream(path, records))
  {
    hide AllStorable, Block;
    if records != [] {
      BlockStorable(path, 0, 0, 0, records[0]);
      StreamStorable(path, records[1..]);
    }
  }

  lemma {:induction false} DataOfEntries(kind: Kind, rMax: nat, dMax: nat, es: seq<Entry>)
    requires AreEntries(kind, es) && forall k :: 0 <= k < |es| ==> Fits(es[k], rMax, dMax)
    ensures T.AreData(kind, Data(es)) && |Data(es)| == T.Defined(Dlvls(es), dMax)
    ensures forall i :: 0 <= i < |es| ==> Rlvls(es)[i] <= rMax && Dlvls(es)[i] <= dMax
    decreases |es|
  {
    hide HasKind, T.CanStore;
    if es != [] {
      DataOfEntries(kind, rMax, dMax, es[1..]);
      assert Fits(es[0], rMax, dMax);
      assert Dlvls(es)[1..] == Dlvls(es[1..]) && Dlvls(es)[0] == es[0].d;
      assert Rlvls(es)[1..] == Rlvls(es[1..]) && Rlvls(es)[0] == es[0].r;
      forall i | 0 <= i < |es| ensures Rlvls(es)[i] <= rMax && Dlvls(es)[i] <= dMax {
        if i > 0 {
          assert Rlvls(es)[i] == Rlvls(es)[1..][i - 1] && Dlvls(es)[i] == Dlvls(es)[1..][i - 1];
        }
      }
    }
  }

  /** The column of a leaf over any records can be written as one of its type. */
  lemma {:induction false} StripeCanBeStored(schema: seq<Field>, path: Path, records: seq<seq<Message>>)
    requires path != [] && IsPath(schema, path) && AllConform(schema, records) && Leaf(path).LeafField?
    requires forall k :: 0 <= k < |records| ==> AllStorable(records[k])
    ensures T.IsStripe(Leaf(path).kind, StripeOf(path, records))
  {
    hide IsPath, AllConform, Stream, AllStorable, HasKind, T.CanStore, Block, T.AreData;
    var es := Stream(path, records);
    StreamFits(schema, path, records);
    StreamStorable(path, records);
    var rMax, dMax := MaxRep(path, 0), MaxDef(path, 0);
    DataOfEntries(Leaf(path).kind, rMax, dMax, es);
    AppendAllStreams(Stripe(rMax, dMax, [], [], []), es);
    assert [] + Rlvls(es) == Rlvls(es) && [] + Dlvls(es) == Dlvls(es) && [] + Data(es) == Data(es);
  }

  lemma {:induction false} TableCanBeWritten(schema: seq<Field>, table: map<string, Stripe>, records: seq<seq<Message>>)
    requires DistinctNames("", schema) && AllConform(schema, records) && Filled(schema, table, records)
    requires table.Keys == NamesAll("", schema) && forall n :: n in NamesAll("", schema) ==> F.IsText(n)
    requires forall k :: 0 <= k < |records| ==> AllStorable(records[k])
    ensures T.CanWrite(KindsAll("", schema), table)
  {
    hide AllConform, AllStorable, T.IsStripe, DistinctNames, KindsAll, NamesAll, StripeOf;
    KindsOfAllNames("", schema);
    forall n | n in table ensures T.IsStripe(KindsAll("", schema)[n], table[n]) {
      NameHasPath("", schema, n);
      var path :| IsPath(schema, path) && ColumnName("", path) == n;
      KindOfPath("", schema, path);
      StripeCanBeStored(schema, path, records);
    }
  }

  // ------------------------------------------------------------------
  // The round trip
  // ------------------------------------------------------------------

  lemma {:induction false} FileIs(
    packer: B.Packer, kinds: map<string, Kind>, table: map<string, Stripe>, numRecords: nat, file: seq<B.Byte>,
    names: seq<string>, cols: seq<F.Column>, spares: seq<seq<B.Byte>>)
    requires T.IsFileOf(packer, kinds, table, numRecords, file, names, cols, spares)
    ensures |cols| == |spares|
  {
  }

  /**
    Records written to a file and read from it. The file has the columns of the records, each once;
    what the columns keep of the records comes back unless a size of the file does not fit into its field. `fill` are the
    bytes that buffers held before.
    */
  method StoreAndLoad(packer: B.Packer, schema: seq<Field>, records: seq<seq<Message>>, skip: seq<bool>,
                      fill: (nat, nat) -> B.Byte)
    returns (file: seq<B.Byte>, out: seq<Option<seq<Message>>>, ghost columns: map<string, Stripe>, ghost names: seq<string>,
             ghost cols: seq<F.Column>, ghost spares: seq<seq<B.Byte>>)
    requires B.IsExact(packer)
    requires DistinctIds(schema) && DistinctNames("", schema) && HasLeaves(schema) && schema != []
    requires forall n :: n in NamesAll("", schema) ==> F.IsText(n)
    requires forall k :: 0 <= k < |records| ==>
               Conforms(schema, records[k], true) && AllStorable(records[k])
    requires |skip| == |records|
    ensures Filled(schema, columns, records) && columns.Keys == NamesAll("", schema)
    ensures T.IsFileOf(packer, KindsAll("", schema), columns, |records|, file, names, cols, spares) && |cols| == |spares|
    ensures F.AllFit(cols, spares) && |records| < F.Limit(8) ==>
              && |out| == |records|
              && forall k :: 0 <= k < |records| ==>
                   if skip[k] then out[k] == None else out[k].Some? && Restored(schema, out[k].value, records[k])
  {
    hide Conforms, Restored, IsPath, Filled, AllStorable, DistinctNames, NamesAll, KindsAll, T.IsFileOf, T.CanWrite,
         F.File, F.AllFit, F.Limit, B.IsExact, DistinctIds;
    forall k | 0 <= k < |records| ensures Conforms(schema, records[k], false) {
      OnceConforms(schema, records[k]);
    }
    var table := WriteTable(schema, records);
    TableCanBeWritten(schema, table, records);
    columns := table;
    ghost var kinds := KindsAll("", schema);
    var someCols, someSpares;
    file, names, someCols, someSpares := T.WriteFile(packer, KindsAll("", schema), table, |records|, fill);
    cols, spares := someCols, someSpares;
    FileIs(packer, kinds, table, |records|, file, names, cols, spares);
    out := [];
    if F.AllFit(someCols, someSpares) && |records| < F.Limit(8) {
      var n, loaded := T.ReadFile(packer, file, kinds, table, |records|, names, cols, spares);
      out := ReadRecords(schema, loaded, n, skip, records);
    }
  }
}
