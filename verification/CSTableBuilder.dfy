/** The shredder: `addRecord` recurses over the schema and appends to the column writers. */
module TableBuilder {
  import opened Wrappers
  import opened Messages
  import opened Columns
  import opened Shredding

  /** The streams of all columns after a log of writes. */
  ghost function Apply(cols: map<string, Stripe>, ws: seq<Put>): map<string, Stripe>
    decreases |ws|
  {
    if ws == [] then cols
    else if ws[0].column in cols then
      Apply(cols[ws[0].column := Append(cols[ws[0].column], ws[0].entry)], ws[1..])
    else Apply(cols, ws[1..])
  }

  lemma {:induction false} ApplyConcat(cols: map<string, Stripe>, a: seq<Put>, b: seq<Put>)
    ensures Apply(cols, a + b) == Apply(Apply(cols, a), b)
    decreases |a|
  {
    if a == [] {
      assert a + b == b;
    } else {
      assert (a + b)[1..] == a[1..] + b;
      if a[0].column in cols {
        ApplyConcat(cols[a[0].column := Append(cols[a[0].column], a[0].entry)], a[1..], b);
      } else {
        ApplyConcat(cols, a[1..], b);
      }
    }
  }

  /** Each column receives the writes addressed to it, in order. */
  lemma {:induction false} ApplyIsProject(cols: map<string, Stripe>, ws: seq<Put>, column: string)
    requires column in cols
    ensures Apply(cols, ws).Keys == cols.Keys
    ensures Apply(cols, ws)[column] == AppendAll(cols[column], Project(ws, column))
    decreases |ws|
  {
    if ws != [] {
      if ws[0].column in cols {
        ApplyIsProject(cols[ws[0].column := Append(cols[ws[0].column], ws[0].entry)], ws[1..], column);
      } else {
        ApplyIsProject(cols, ws[1..], column);
      }
      if ws[0].column == column {
        assert Project(ws, column)[0] == ws[0].entry && Project(ws, column)[1..] == Project(ws[1..], column);
      } else {
        assert Project(ws, column) == Project(ws[1..], column);
      }
    }
  }

  /** Adding a conforming record appends to every column of the schema the block of its path. */
  lemma {:induction false} RecordAppendsBlocks(cols: map<string, Stripe>, m: Message, fields: seq<Field>, path: Path)
    requires IsPath(fields, path) && DistinctNames("", fields)
    requires ColumnName("", path) in cols
    requires ShredFields(0, 0, 0, m, "", fields).error.None?
    ensures m.Object?
    ensures Apply(cols, ShredFields(0, 0, 0, m, "", fields).writes).Keys == cols.Keys
    ensures Apply(cols, ShredFields(0, 0, 0, m, "", fields).writes)[ColumnName("", path)]
            == AppendAll(cols[ColumnName("", path)], Block(path, 0, 0, 0, m.children))
  {
    FieldsOfColumn(0, 0, 0, m, "", fields, path);
    ApplyIsProject(cols, ShredFields(0, 0, 0, m, "", fields).writes, ColumnName("", path));
  }

  lemma {:induction false} FieldNames(prefix: string, fields: seq<Field>, i: nat)
    requires i < |fields|
    ensures Names(prefix, fields[i]) <= NamesAll(prefix, fields)
    decreases i
  {
    if i > 0 {
      assert fields[i] == fields[1..][i - 1];
      FieldNames(prefix, fields[1..], i - 1);
    }
  }

  lemma {:induction false} ShredPrefix(
      r: nat, rmax: nat, d: nat, m: Message, prefix: string, fields: seq<Field>, i: nat)
    requires i < |fields|
    ensures var done := ShredFields(r, rmax, d, m, prefix, fields[..i]);
            done.error.None? ==>
              && ShredFields(r, rmax, d, m, prefix, fields[..i + 1])
                 == Then(done, ShredField(r, rmax, d, m, prefix, fields[i]))
              && (ShredField(r, rmax, d, m, prefix, fields[i]).error.Some? ==>
                    ShredFields(r, rmax, d, m, prefix, fields)
                    == Then(done, ShredField(r, rmax, d, m, prefix, fields[i])))
    decreases i
  {
    if i == 0 {
      assert fields[..1][1..] == [];
      assert ShredFields(r, rmax, d, m, prefix, fields[..1][1..]) == Shred([], None);
    } else {
      assert fields[..i][1..] == fields[1..][..i - 1];
      assert fields[..i + 1][1..] == fields[1..][..i];
      assert fields[1..][i - 1] == fields[i];
      ShredPrefix(r, rmax, d, m, prefix, fields[1..], i - 1);
    }
  }

  lemma {:induction false} NullsPrefix(r: nat, d: nat, column: string, fields: seq<Field>, i: nat)
    requires i < |fields|
    ensures NullsAll(r, d, column, fields[..i + 1])
            == NullsAll(r, d, column, fields[..i]) + Nulls(r, d, column + "." + fields[i].name, fields[i])
    decreases i
  {
    if i == 0 {
      assert fields[..1][1..] == [];
    } else {
      assert fields[..i][1..] == fields[1..][..i - 1];
      assert fields[..i + 1][1..] == fields[1..][..i];
      NullsPrefix(r, d, column, fields[1..], i - 1);
    }
  }

  class CSTableBuilder {
    const schema: seq<Field>
    var columns: map<string, ColumnWriter>
    var numRecords: nat

    ghost predicate Valid()
      reads this, columns.Values
    {
      && (forall n :: n in columns ==> columns[n].Valid())
      && (forall n, k :: n in columns && k in columns && n != k ==> columns[n] != columns[k])
    }

    ghost function Contents(): map<string, Stripe>
      reads this, columns.Values
    {
      map n | n in columns :: columns[n].Contents()
    }

    constructor (schema: seq<Field>)
      ensures Valid() && this.schema == schema && numRecords == 0
      ensures fresh(columns.Values)
      ensures Contents() == Created("", 0, 0, schema, map[])
    {
      this.schema := schema;
      columns, numRecords := map[], 0;
      new;
      CreateAll("", 0, 0, schema);
    }

    method CreateAll(prefix: string, rMax: nat, dMax: nat, fields: seq<Field>)
      requires Valid()
      modifies this`columns
      ensures Valid() && fresh(columns.Values - old(columns.Values))
      ensures Contents() == Created(prefix, rMax, dMax, fields, old(Contents()))
      decreases fields, |fields|
    {
      var i := 0;
      assert fields[..0] == [];
      while i < |fields|
        invariant 0 <= i <= |fields| && Valid()
        invariant fresh(columns.Values - old(columns.Values))
        invariant Contents() == Created(prefix, rMax, dMax, fields[..i], old(Contents()))
      {
        CreatedPrefix(prefix, rMax, dMax, fields, i, old(Contents()));
        CreateColumns(prefix, rMax, dMax, fields[i]);
        i := i + 1;
      }
      assert fields[..i] == fields;
    }

    method CreateColumns(prefix: string, rMax: nat, dMax: nat, field: Field)
      requires Valid()
      modifies this`columns
      ensures Valid() && fresh(columns.Values - old(columns.Values))
      ensures Contents() == CreatedOne(prefix, rMax, dMax, field, old(Contents()))
      decreases field
    {
      var colname := prefix + field.name;
      var r, d := rMax, dMax;
      if field.repeated {
        r := r + 1;
      }
      if field.repeated || field.optional {
        d := d + 1;
      }
      match field {
        case ObjectField(_, _, _, _, fields) =>
          CreateAll(colname + ".", r, d, fields);
        case LeafField(_, _, _, _, _) =>
          Emplace(colname, r, d);
      }
    }

    /** An existing writer of that name is kept. */
    method Emplace(colname: string, r: nat, d: nat)
      requires Valid()
      modifies this`columns
      ensures Valid() && fresh(columns.Values - old(columns.Values))
      ensures Contents() == if colname in old(columns) then old(Contents())
                            else old(Contents())[colname := Stripe(r, d, [], [], [])]
    {
      if colname !in columns {
        var w := new ColumnWriter(r, d);
        columns := columns[colname := w];
      }
    }

    /** Hand every column to the table writer, in any order. */
    method Write() returns (table: map<string, Stripe>)
      requires Valid()
      ensures table == Contents()
    {
      table := map[];
      var left := columns.Keys;
      while left != {}
        invariant left <= columns.Keys && table.Keys == columns.Keys - left
        invariant forall n :: n in table ==> table[n] == columns[n].Contents()
        decreases left
      {
        var n :| n in left;
        var stripe := columns[n].Contents();
        table, left := table[n := stripe], left - {n};
      }
    }

    /** A record that is refused leaves exactly the writes made before the error and is not counted. */
    method AddRecord(m: Message) returns (error: Option<ShredError>)
      requires Valid() && NamesAll("", schema) <= columns.Keys
      modifies this`numRecords, columns.Values
      ensures Valid()
      ensures error == ShredFields(0, 0, 0, m, "", schema).error
      ensures Contents() == Apply(old(Contents()), ShredFields(0, 0, 0, m, "", schema).writes)
      ensures numRecords == old(numRecords) + (if error.None? then 1 else 0)
    {
      error := AddFields(0, 0, 0, m, "", schema);
      if error.None? {
        numRecords := numRecords + 1;
      }
    }

    method AddFields(r: nat, rmax: nat, d: nat, m: Message, prefix: string, fields: seq<Field>)
      returns (error: Option<ShredError>)
      requires Valid() && NamesAll(prefix, fields) <= columns.Keys
      modifies columns.Values
      ensures Valid()
      ensures error == ShredFields(r, rmax, d, m, prefix, fields).error
      ensures Contents() == Apply(old(Contents()), ShredFields(r, rmax, d, m, prefix, fields).writes)
      decreases fields, |fields|
    {
      hide CSTableBuilder.Contents, Names;
      var i := 0;
      ghost var done := ShredFields(r, rmax, d, m, prefix, fields[..0]);
      while i < |fields|
        invariant 0 <= i <= |fields| && Valid()
        invariant done == ShredFields(r, rmax, d, m, prefix, fields[..i]) && done.error.None?
        invariant Contents() == Apply(old(Contents()), done.writes)
      {
        ghost var next := ShredField(r, rmax, d, m, prefix, fields[i]);
        FieldNames(prefix, fields, i);
        ShredPrefix(r, rmax, d, m, prefix, fields, i);
        ApplyConcat(old(Contents()), done.writes, next.writes);
        error := AddRecordField(r, rmax, d, m, prefix, fields[i]);
        if error.Some? {
          return;
        }
        done := Then(done, next);
        i := i + 1;
      }
      assert fields[..i] == fields;
      error := None;
    }

    method AddRecordField(r: nat, rmax: nat, d: nat, m: Message, prefix: string, field: Field)
      returns (error: Option<ShredError>)
      requires Valid() && Names(prefix, field) <= columns.Keys
      modifies columns.Values
      ensures Valid()
      ensures error == ShredField(r, rmax, d, m, prefix, field).error
      ensures Contents() == Apply(old(Contents()), ShredField(r, rmax, d, m, prefix, field).writes)
      decreases field, 2
    {
      hide ShredOcc, Apply, CSTableBuilder.Contents, Occ, Nulls;
      NoOccurrence(Contents(), r, RepIn(field, rmax), DefIn(field, d), prefix, field);
      if m.Value? {
        return Some(TypeError);
      }
      var nextD, rmaxIn := d, rmax;
      if field.repeated {
        rmaxIn := rmaxIn + 1;
      }
      if field.optional || field.repeated {
        nextD := nextD + 1;
      }

      var n;
      n, error := AddOccurrences(r, rmaxIn, nextD, m.children, prefix, field);
      if error.None? && n == 0 {
        if !(field.optional || field.repeated) {
          return Some(MissingField);
        }
        WriteNull(r, d, prefix + field.name, field);
      }
    }

    /** The loop of `addRecordField` over the children with the id of the field. */
    method AddOccurrences(r: nat, rmax: nat, d: nat, ms: seq<Message>, prefix: string, field: Field)
      returns (n: nat, error: Option<ShredError>)
      requires Valid() && Names(prefix, field) <= columns.Keys
      modifies columns.Values
      ensures Valid()
      ensures n == 0 <==> Occ(ms, field.id) == []
      ensures error == ShredOcc(r, rmax, d, Occ(ms, field.id), prefix, field).error
      ensures Contents() == Apply(old(Contents()), ShredOcc(r, rmax, d, Occ(ms, field.id), prefix, field).writes)
      decreases field, 1
    {
      hide ShredElem, ShredOcc, Then, Occ, Apply, CSTableBuilder.Contents, Names;
      var nextR := r;
      n := 0;
      var i := 0;
      ghost var before := Contents();
      ghost var done := Shred([], None);
      ghost var all := ShredOcc(r, rmax, d, Occ(ms, field.id), prefix, field);
      assert ms[0..] == ms;
      NothingYet(before, all);
      while i < |ms|
        invariant 0 <= i <= |ms| && Valid()
        invariant done.error.None? && Contents() == Apply(before, done.writes)
        invariant n == 0 ==> Occ(ms, field.id) == Occ(ms[i..], field.id)
        invariant n > 0 ==> Occ(ms, field.id) != []
        invariant Then(done, ShredOcc(nextR, rmax, d, Occ(ms[i..], field.id), prefix, field)) == all
      {
        OccStep(ms, i, field.id);
        if ms[i].id == field.id {
          n := n + 1;
          ghost var elem := ShredElem(nextR, rmax, d, ms[i], prefix, field);
          error := AddElem(nextR, rmax, d, ms[i], prefix, field);
          ApplyConcat(before, done.writes, elem.writes);
          ElemStep(done, nextR, rmax, d, ms[i], Occ(ms[i + 1..], field.id), prefix, field);
          if error.Some? {
            return;
          }
          done := Then(done, elem);
          nextR := rmax;
        }
        i := i + 1;
      }
      assert ms[i..] == [];
      NoMore(done, nextR, rmax, d, prefix, field);
      error := None;
    }

    method AddElem(r: nat, rmax: nat, d: nat, o: Message, prefix: string, field: Field)
      returns (error: Option<ShredError>)
      requires Valid() && Names(prefix, field) <= columns.Keys
      modifies columns.Values
      ensures Valid()
      ensures error == ShredElem(r, rmax, d, o, prefix, field).error
      ensures Contents() == Apply(old(Contents()), ShredElem(r, rmax, d, o, prefix, field).writes)
      decreases field, 0
    {
      match field {
        case ObjectField(_, name, _, _, fields) =>
          error := AddFields(r, rmax, d, o, prefix + name + ".", fields);
        case LeafField(_, name, _, _, _) =>
          error := WriteField(r, d, o, prefix + name, field);
      }
    }

    method WriteNull(r: nat, d: nat, column: string, field: Field)
      requires Valid() && NullNames(column, field) <= columns.Keys
      modifies columns.Values
      ensures Valid() && Contents() == Apply(old(Contents()), Nulls(r, d, column, field))
      decreases field
    {
      match field {
        case ObjectField(_, _, _, _, fields) =>
          var i := 0;
          assert fields[..0] == [];
          while i < |fields|
            invariant 0 <= i <= |fields| && Valid()
            invariant Contents() == Apply(old(Contents()), NullsAll(r, d, column, fields[..i]))
          {
            FieldNames(column + ".", fields, i);
            NullsPrefix(r, d, column, fields, i);
            ApplyConcat(old(Contents()), NullsAll(r, d, column, fields[..i]),
                        Nulls(r, d, column + "." + fields[i].name, fields[i]));
            WriteNull(r, d, column + "." + fields[i].name, fields[i]);
            i := i + 1;
          }
          assert fields[..i] == fields;
        case LeafField(_, _, _, _, _) =>
          columns[column].AddNull(r, d);
          OneWrite(old(Contents()), Put(column, Entry(r, d, None)));
      }
    }

    method WriteField(r: nat, d: nat, o: Message, column: string, field: Field) returns (error: Option<ShredError>)
      requires Valid() && field.LeafField? && column in columns
      modifies columns.Values
      ensures Valid()
      ensures error == if o.Value? && Stored(field.kind, o.scalar).Some? then None else Some(TypeError)
      ensures Contents() == if error.Some? then old(Contents())
                            else Apply(old(Contents()), [Put(column, Entry(r, d, Stored(field.kind, o.scalar)))])
    {
      if o.Object? || Stored(field.kind, o.scalar).None? {
        return Some(TypeError);
      }
      columns[column].AddDatum(r, d, Stored(field.kind, o.scalar).value);
      OneWrite(old(Contents()), Put(column, Entry(r, d, Stored(field.kind, o.scalar))));
      error := None;
    }
  }

  lemma {:induction false} OccStep(ms: seq<Message>, i: nat, id: nat)
    requires i < |ms|
    ensures Occ(ms[i..], id) == if ms[i].id == id then [ms[i]] + Occ(ms[i + 1..], id) else Occ(ms[i + 1..], id)
  {
    assert ms[i..][1..] == ms[i + 1..];
  }

  lemma {:induction false} NothingYet(cols: map<string, Stripe>, all: Shred)
    ensures Apply(cols, []) == cols && Then(Shred([], None), all) == all
  {
    assert [] + all.writes == all.writes;
  }

  lemma {:induction false} NoOccurrence(cols: map<string, Stripe>, r: nat, rmax: nat, d: nat, prefix: string, f: Field)
    ensures Apply(cols, []) == cols && ShredOcc(r, rmax, d, [], prefix, f) == Shred([], None)
  {
  }

  lemma {:induction false} NoMore(done: Shred, r: nat, rmax: nat, d: nat, prefix: string, f: Field)
    requires done.error.None?
    ensures Occ([], f.id) == [] && Then(done, ShredOcc(r, rmax, d, [], prefix, f)) == done
  {
    assert done.writes + [] == done.writes;
  }

  /** One more occurrence: what was done so far grows by the writes of the element. */
  lemma {:induction false} ElemStep(done: Shred, r: nat, rmax: nat, d: nat, o: Message, rest: seq<Message>, prefix: string, f: Field)
    requires done.error.None?
    ensures var elem := ShredElem(r, rmax, d, o, prefix, f);
            Then(done, ShredOcc(r, rmax, d, [o] + rest, prefix, f))
            == if elem.error.Some? then Then(done, elem)
               else Then(Then(done, elem), ShredOcc(rmax, rmax, d, rest, prefix, f))
    ensures var elem := ShredElem(r, rmax, d, o, prefix, f);
            Then(done, elem) == Shred(done.writes + elem.writes, elem.error)
  {
    var elem, more := ShredElem(r, rmax, d, o, prefix, f), ShredOcc(rmax, rmax, d, rest, prefix, f);
    assert ([o] + rest)[1..] == rest;
    assert done.writes + (elem.writes + more.writes) == (done.writes + elem.writes) + more.writes;
  }

  ghost function NullNames(column: string, f: Field): set<string> {
    match f
    case LeafField(_, _, _, _, _) => {column}
    case ObjectField(_, _, _, _, fields) => NamesAll(column + ".", fields)
  }

  lemma {:induction false} OneWrite(cols: map<string, Stripe>, w: Put)
    requires w.column in cols
    ensures Apply(cols, [w]) == cols[w.column := Append(cols[w.column], w.entry)]
  {
    assert [w][1..] == [];
    assert Apply(cols[w.column := Append(cols[w.column], w.entry)], [w][1..])
        == cols[w.column := Append(cols[w.column], w.entry)];
  }

  /** The columns of a schema: one per leaf, empty, with the levels of its path. */
  function CreatedOne(prefix: string, r: nat, d: nat, f: Field, cols: map<string, Stripe>): map<string, Stripe>
    decreases f, 0
  {
    match f
    case ObjectField(_, name, _, _, fields) =>
      Created(prefix + name + ".", RepIn(f, r), DefIn(f, d), fields, cols)
    case LeafField(_, name, _, _, _) =>
      if prefix + name in cols then cols
      else cols[prefix + name := Stripe(RepIn(f, r), DefIn(f, d), [], [], [])]
  }

  function Created(prefix: string, r: nat, d: nat, fields: seq<Field>, cols: map<string, Stripe>): map<string, Stripe>
    decreases fields, |fields|
  {
    if fields == [] then cols
    else Created(prefix, r, d, fields[1..], CreatedOne(prefix, r, d, fields[0], cols))
  }

  lemma {:induction false} CreatedPrefix(
      prefix: string, r: nat, d: nat, fields: seq<Field>, i: nat, cols: map<string, Stripe>)
    requires i < |fields|
    ensures Created(prefix, r, d, fields[..i + 1], cols)
            == CreatedOne(prefix, r, d, fields[i], Created(prefix, r, d, fields[..i], cols))
    decreases i
  {
    if i == 0 {
      assert fields[..1][1..] == [];
      assert Created(prefix, r, d, fields[..1][1..], CreatedOne(prefix, r, d, fields[0], cols))
          == CreatedOne(prefix, r, d, fields[0], cols);
    } else {
      assert fields[..i][1..] == fields[1..][..i - 1];
      assert fields[..i + 1][1..] == fields[1..][..i];
      CreatedPrefix(prefix, r, d, fields[1..], i - 1, CreatedOne(prefix, r, d, fields[0], cols));
    }
  }

  lemma {:induction false} CreatedKeys(prefix: string, r: nat, d: nat, fields: seq<Field>, cols: map<string, Stripe>)
    ensures Created(prefix, r, d, fields, cols).Keys == cols.Keys + NamesAll(prefix, fields)
    ensures forall n :: n in cols ==> Created(prefix, r, d, fields, cols)[n] == cols[n]
    decreases fields, |fields|
  {
    if fields != [] {
      var f := fields[0];
      if f.ObjectField? {
        CreatedKeys(prefix + f.name + ".", RepIn(f, r), DefIn(f, d), f.fields, cols);
      }
      CreatedKeys(prefix, r, d, fields[1..], CreatedOne(prefix, r, d, f, cols));
    }
  }

  /** The builder gives every column the maximal levels of its path, the ones its blocks respect. */
  lemma {:induction false} CreatedLevels(
      prefix: string, r: nat, d: nat, fields: seq<Field>, cols: map<string, Stripe>, path: Path)
    requires IsPath(fields, path) && DistinctNames(prefix, fields)
    requires ColumnName(prefix, path) !in cols
    ensures ColumnName(prefix, path) in Created(prefix, r, d, fields, cols)
    ensures Created(prefix, r, d, fields, cols)[ColumnName(prefix, path)]
            == Stripe(MaxRep(path, r), MaxDef(path, d), [], [], [])
    decreases |path|, |fields|
  {
    var f := fields[0];
    var next := CreatedOne(prefix, r, d, f, cols);
    CreatedKeys(prefix, r, d, fields[1..], next);
    if f.ObjectField? {
      CreatedKeys(prefix + f.name + ".", RepIn(f, r), DefIn(f, d), f.fields, cols);
    }
    if path[0] == f {
      if f.ObjectField? {
        CreatedLevels(prefix + f.name + ".", RepIn(f, r), DefIn(f, d), f.fields, cols, path[1..]);
      } else {
        assert path[1..] == [];
        assert MaxRep(path, r) == MaxRep(path[1..], RepIn(f, r)) == RepIn(f, r);
        assert MaxDef(path, d) == MaxDef(path[1..], DefIn(f, d)) == DefIn(f, d);
      }
    } else {
      PathHasName(prefix, fields[1..], path);
      CreatedLevels(prefix, r, d, fields[1..], next, path);
    }
  }
}
