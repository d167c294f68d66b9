/** The assembler: one cursor per column, each record rebuilt column by column. */
module Materializer {
  import opened Wrappers
  import opened Messages
  import opened Columns
  import opened Shredding
  import opened Assembly
  import opened NoPadding

  /** A block is recovered from the stripe because only its first entry has level 0. */
  lemma {:induction false} BlockIsHead(block: seq<Entry>, rest: seq<Entry>, rTop: nat, dTop: nat)
    requires WellFormed(block, 0, 0, rTop, dTop)
    requires rest != [] ==> rest[0].r == 0
    ensures Head(block + rest) == block && Tail(block + rest) == rest
  {
    assert (block + rest)[1..] == block[1..] + rest;
    assert block == [block[0]] + block[1..];
    RepeatsStop(block[1..], rest);
  }

  lemma {:induction false} FeedHead(path: Path, s: State, es: seq<Entry>)
    requires path != [] && es != []
    ensures Feed(path, 0, 0, s, Head(es)) == Feed(path, 0, 0, Step(path, 0, 0, s, es[0]), Repeats(es[1..]))
    ensures |es| > 1 && es[1].r > 0 ==> Repeats(es[1..]) == Head(es[1..]) && Tail(es) == Tail(es[1..])
    ensures |es| == 1 || es[1].r == 0 ==>
              && Tail(es) == es[1..]
              && Feed(path, 0, 0, s, Head(es)) == Step(path, 0, 0, s, es[0])
              && FeedPadding(path, 0, 0, s, Head(es)) == StepPadding(path, 0, 0, s, es[0])
    ensures FeedPadding(path, 0, 0, s, Head(es))
            == StepPadding(path, 0, 0, s, es[0])
               + FeedPadding(path, 0, 0, Step(path, 0, 0, s, es[0]), Repeats(es[1..]))
  {
    hide Step, StepPadding;
    assert Head(es)[1..] == Repeats(es[1..]);
  }

  class ColumnState {
    const reader: ColumnReader
    const parents: seq<Parent>
    const fieldId: nat
    ghost const path: Path
    var pending: bool
    var r: nat
    var d: nat
    var value: Option<Scalar>

    ghost predicate Valid()
      reads this, reader
    {
      && reader.Valid()
      && path != []
      && parents == Parents(path, 0)
      && fieldId == path[|path| - 1].id
      && reader.stripe.rMax == Reps(path)
      && (forall e :: e in Remaining() ==> e.r <= Reps(path))
    }

    /** The entries still to be loaded, with the one fetched ahead. */
    ghost function Remaining(): seq<Entry>
      requires reader.Valid()
      reads this, reader
    {
      (if pending then [Entry(r, d, value)] else []) + reader.Rest()
    }

    constructor (reader: ColumnReader, parents: seq<Parent>, fieldId: nat, ghost path: Path)
      requires reader.Valid() && path != [] && parents == Parents(path, 0)
      requires fieldId == path[|path| - 1].id && reader.stripe.rMax == Reps(path)
      requires forall e :: e in reader.Rest() ==> e.r <= Reps(path)
      ensures Valid() && this.reader == reader && this.path == path
      ensures Remaining() == reader.Rest()
    {
      this.reader, this.parents, this.fieldId, this.path := reader, parents, fieldId, path;
      pending, r, d, value := false, 0, 0, None;
    }

    method FetchIfNotPending()
      requires Valid() && Remaining() != []
      modifies this, reader
      ensures Valid() && pending
      ensures Remaining() == old(Remaining()) && Entry(r, d, value) == Remaining()[0]
    {
      if pending {
        return;
      }
      r, d, value := reader.Next();
      pending := true;
      assert Remaining() == old(Remaining());
    }

    method Consume()
      requires Valid() && pending
      modifies this`pending
      ensures Valid() && !pending && Remaining() == old(Remaining())[1..]
    {
      pending := false;
      assert Remaining() == old(Remaining())[1..];
    }

    /** Skip one record: the column is left where loading the record would leave it. */
    method Skip()
      requires Valid() && Remaining() != []
      modifies this, reader
      ensures Valid() && Remaining() == Tail(old(Remaining()))
    {
      ghost var rest := Tail(Remaining());
      while true
        invariant Valid() && Remaining() != [] && Tail(Remaining()) == rest
        decreases |Remaining()|
      {
        FetchIfNotPending();
        Consume();
        var eof := reader.EofReached();
        if eof {
          break;
        }
        FetchIfNotPending();
        if r == 0 {
          break;
        }
      }
    }

    /** Add what this column contributes to one record. */
    method Load(record: seq<Message>) returns (out: seq<Message>, ghost padded: nat)
      requires Valid() && Remaining() != [] && Remaining()[0].r == 0
      modifies this, reader
      ensures Valid() && Remaining() == Tail(old(Remaining()))
      ensures out == Feed(path, 0, 0, State(Zeros(Reps(path)), record), Head(old(Remaining()))).out
      ensures padded == FeedPadding(path, 0, 0, State(Zeros(Reps(path)), record), Head(old(Remaining())))
    {
      hide Feed, FeedPadding, Step, StepPadding, Head, Tail, Repeats, AfterRepeats, Parents, Decode;
      var indexes := new nat[reader.stripe.rMax](_ => 0);
      assert indexes[..] == Zeros(Reps(path));
      out := record;
      ghost var rest := Tail(Remaining());
      ghost var result := Feed(path, 0, 0, State(Zeros(Reps(path)), record), Head(Remaining()));
      ghost var padding := FeedPadding(path, 0, 0, State(Zeros(Reps(path)), record), Head(Remaining()));
      padded := 0;
      while true
        invariant Valid() && Remaining() != [] && Tail(Remaining()) == rest
        invariant indexes.Length == Reps(path)
        invariant Remaining()[0].r == 0 ==> indexes[..] == Zeros(Reps(path))
        invariant Feed(path, 0, 0, State(indexes[..], out), Head(Remaining())) == result
        invariant padded + FeedPadding(path, 0, 0, State(indexes[..], out), Head(Remaining())) == padding
        decreases |Remaining()|
      {
        FetchIfNotPending();
        ghost var es := Remaining();
        FeedHead(path, State(indexes[..], out), es);
        ghost var more;
        out, more := LoadEntry(indexes, out);
        padded := padded + more;
        Consume();
        var eof := reader.EofReached();
        if eof {
          break;
        }
        FetchIfNotPending();
        if r == 0 {
          return;
        }
      }
    }

    /** The cursor stands before the first of some records. */
    ghost predicate At(records: seq<seq<Message>>)
      reads this, reader
    {
      Valid() && Remaining() == Stream(path, records)
    }

    /** Load this column's part of the next record into what other columns have assembled. The
        loops that make up missing objects do not run. */
    method LoadNext(ghost schema: seq<Field>, ghost records: seq<seq<Message>>, ghost cols: set<Path>,
                    record: seq<Message>)
      returns (out: seq<Message>, ghost padded: nat)
      requires At(records) && records != [] && IsPath(schema, path)
      requires DistinctIds(schema) && AllConform(schema, records)
      requires ArePaths(schema, cols) && path !in cols && Matches(record, schema, cols, records[0])
      modifies this, reader
      ensures At(records[1..]) && Matches(out, schema, cols + {path}, records[0])
      ensures padded == 0
    {
      hide Matches, Stream, Head, Tail, Block, Feed, FeedPadding, Conforms, Decode;
      StreamHead(schema, path, records);
      NothingMadeUp(schema, path, cols, 0, 0, 0, records[0], State(Zeros(Reps(path)), record));
      LoadBlock(schema, path, cols, 0, 0, 0, records[0], State(Zeros(Reps(path)), record));
      out, padded := Load(record);
    }

    method SkipNext(ghost schema: seq<Field>, ghost records: seq<seq<Message>>)
      requires At(records) && records != [] && IsPath(schema, path) && AllConform(schema, records)
      modifies this, reader
      ensures At(records[1..])
    {
      hide Stream, Head, Tail, Block, Conforms, Decode;
      StreamHead(schema, path, records);
      Skip();
    }

    /** One entry: count it in the element numbers and insert it there. */
    method LoadEntry(indexes: array<nat>, record: seq<Message>) returns (out: seq<Message>, ghost padded: nat)
      requires Valid() && pending && indexes.Length == Reps(path)
      requires r == 0 ==> indexes[..] == Zeros(Reps(path))
      modifies indexes
      ensures State(indexes[..], out)
              == Step(path, 0, 0, State(old(indexes[..]), record), Entry(r, d, value))
      ensures padded == StepPadding(path, 0, 0, State(old(indexes[..]), record), Entry(r, d, value))
    {
      hide Insert, Padding, Parents;
      ghost var idx := indexes[..];
      if r > 0 {
        assert Entry(r, d, value) in Remaining();
        BumpInPlace(indexes, r);
      }
      assert indexes[..] == Bump(idx, r);
      if value.Some? {
        out, padded := InsertValue(parents, indexes[..], fieldId, Entry(r, d, value), record);
      } else {
        out, padded := InsertNull(parents, indexes[..], fieldId, Entry(r, d, value), record);
      }
    }

    method BumpInPlace(indexes: array<nat>, k: nat)
      requires 0 < k <= indexes.Length
      modifies indexes
      ensures indexes[..] == Bump(old(indexes[..]), k)
    {
      ghost var was := indexes[..];
      indexes[k - 1] := indexes[k - 1] + 1;
      var x := k;
      while x < indexes.Length
        invariant k <= x <= indexes.Length
        invariant forall j :: 0 <= j < k - 1 ==> indexes[j] == was[j]
        invariant indexes[k - 1] == was[k - 1] + 1
        invariant forall j :: k <= j < x ==> indexes[j] == 0
      {
        indexes[x] := 0;
        x := x + 1;
      }
    }
  }

  /** Look for the target-th child with an id, counting the ones passed. */
  method FindChild(record: seq<Message>, id: nat, target: nat) returns (pos: nat, seen: nat)
    ensures pos == Position(record, id, target)
    ensures pos == |record| ==> seen == |Occ(record, id)| <= target
  {
    pos, seen := 0, 0;
    while pos < |record|
      invariant 0 <= pos <= |record|
      invariant seen == |Occ(record[..pos], id)| <= target
    {
      assert record[..pos + 1] == record[..pos] + [record[pos]];
      OccConcat(record[..pos], [record[pos]], id);
      assert [record[pos]][1..] == [];
      if record[pos].id == id {
        if seen == target {
          PositionUnique(record, id, target, pos);
          return;
        }
        seen := seen + 1;
      }
      pos := pos + 1;
    }
    assert record[..pos] == record;
  }

  /** Fresh objects until the n-th one can be appended. */
  method PadTo(record: seq<Message>, id: nat, seen: nat, target: nat) returns (out: seq<Message>)
    requires seen == |Occ(record, id)| <= target
    ensures out == Pad(record, id, target)
  {
    out := record;
    var i := seen;
    while i < target
      invariant seen <= i <= target
      invariant out == record + seq(i - seen, _ => Object(id, []))
    {
      out := out + [Object(id, [])];
      i := i + 1;
    }
  }

  method InsertValue(parents: seq<Parent>, indexes: seq<nat>, fieldId: nat, e: Entry, record: seq<Message>)
    returns (out: seq<Message>, ghost padded: nat)
    requires e.value.Some?
    ensures out == Insert(record, parents, indexes, fieldId, e)
    ensures padded == Padding(record, parents, indexes, e)
    decreases |parents|
  {
    if parents == [] {
      return record + [Value(fieldId, e.value.value)], 0;
    }
    var parent := parents[0];
    var target, rest := 0, indexes;
    if parent.repeated && indexes != [] {
      target, rest := indexes[0], indexes[1..];
    }
    var pos, seen := FindChild(record, parent.id, target);
    if pos < |record| {
      var kids, more := InsertValue(parents[1..], rest, fieldId, e, if record[pos].Object? then record[pos].children else []);
      out, padded := record[pos := Object(parent.id, kids)], more;
    } else {
      var front := PadTo(record, parent.id, seen, target);
      var kids, more := InsertValue(parents[1..], rest, fieldId, e, []);
      out, padded := front + [Object(parent.id, kids)], |front| - |record| + more;
    }
  }

  method InsertNull(parents: seq<Parent>, indexes: seq<nat>, fieldId: nat, e: Entry, record: seq<Message>)
    returns (out: seq<Message>, ghost padded: nat)
    requires e.value.None?
    ensures out == Insert(record, parents, indexes, fieldId, e)
    ensures padded == Padding(record, parents, indexes, e)
    decreases |parents|
  {
    if parents == [] || parents[0].dMax > e.d {
      return record, 0;
    }
    var parent := parents[0];
    var target, rest := 0, indexes;
    if parent.repeated && indexes != [] {
      target, rest := indexes[0], indexes[1..];
    }
    var pos, seen := FindChild(record, parent.id, target);
    if pos < |record| {
      var kids, more := InsertNull(parents[1..], rest, fieldId, e, if record[pos].Object? then record[pos].children else []);
      out, padded := record[pos := Object(parent.id, kids)], more;
    } else {
      var front := PadTo(record, parent.id, seen, target);
      var kids, more := InsertNull(parents[1..], rest, fieldId, e, []);
      out, padded := front + [Object(parent.id, kids)], |front| - |record| + more;
    }
  }

  // ------------------------------------------------------------------
  // A table of records
  // ------------------------------------------------------------------

  /** The stripe of a column over a list of records. */
  ghost function Stream(path: Path, records: seq<seq<Message>>): seq<Entry>
    requires path != []
  {
    if records == [] then [] else Block(path, 0, 0, 0, records[0]) + Stream(path, records[1..])
  }

  ghost predicate AllConform(schema: seq<Field>, records: seq<seq<Message>>) {
    forall k :: 0 <= k < |records| ==> Conforms(schema, records[k], true)
  }

  lemma {:induction false} StreamFits(schema: seq<Field>, path: Path, records: seq<seq<Message>>)
    requires IsPath(schema, path) && AllConform(schema, records)
    ensures forall k :: 0 <= k < |Stream(path, records)| ==> Fits(Stream(path, records)[k], MaxRep(path, 0), MaxDef(path, 0))
    ensures Stream(path, records) != [] ==> Stream(path, records)[0].r == 0
  {
    if records != [] {
      BlockWellFormed(schema, path, 0, 0, 0, records[0]);
      StreamFits(schema, path, records[1..]);
    }
  }

  lemma {:induction false} StreamHead(schema: seq<Field>, path: Path, records: seq<seq<Message>>)
    requires IsPath(schema, path) && AllConform(schema, records) && records != []
    ensures var es := Stream(path, records);
            && es != [] && es[0].r == 0
            && Head(es) == Block(path, 0, 0, 0, records[0])
            && Tail(es) == Stream(path, records[1..])
  {
    BlockWellFormed(schema, path, 0, 0, 0, records[0]);
    StreamFits(schema, path, records[1..]);
    BlockIsHead(Block(path, 0, 0, 0, records[0]), Stream(path, records[1..]), MaxRep(path, 0), MaxDef(path, 0));
  }

  /** The column a table should hold at a path. */
  ghost function StripeOf(path: Path, records: seq<seq<Message>>): Stripe
    requires path != []
  {
    AppendAll(Stripe(MaxRep(path, 0), MaxDef(path, 0), [], [], []), Stream(path, records))
  }

  ghost predicate Holds(schema: seq<Field>, table: map<string, Stripe>, records: seq<seq<Message>>) {
    forall p :: IsPath(schema, p) && ColumnName("", p) in table ==> table[ColumnName("", p)] == StripeOf(p, records)
  }

  /** The columns of some names. */
  ghost function PathsOf(columns: map<string, ColumnState>, names: set<string>): set<Path> {
    set n | n in names && n in columns :: columns[n].path
  }

  lemma {:induction false} NoneVisited(columns: map<string, ColumnState>)
    ensures PathsOf(columns, columns.Keys - columns.Keys) == {}
  {
  }

  /** A column not visited yet is not among the visited ones. */
  lemma {:induction false} NotVisited(schema: seq<Field>, columns: map<string, ColumnState>, todo: set<string>, n: string)
    requires forall k :: k in columns ==> IsPath(schema, columns[k].path) && ColumnName("", columns[k].path) == k
    requires n in todo && n in columns
    ensures ArePaths(schema, PathsOf(columns, columns.Keys - todo))
    ensures columns[n].path !in PathsOf(columns, columns.Keys - todo)
    ensures PathsOf(columns, columns.Keys - (todo - {n}))
            == PathsOf(columns, columns.Keys - todo) + {columns[n].path}
  {
  }

  predicate Chosen(name: string, table: map<string, Stripe>, wanted: set<string>) {
    name in table && (wanted == {} || name in wanted)
  }

  /** How the recursion over the schema reached some fields: `up` are the fields passed, from
      which the name prefix and the parents were made. */
  ghost predicate Context(
      schema: seq<Field>, up: Path, prefix: string, dMax: nat, parents: seq<Parent>, fields: seq<Field>)
  {
    forall q :: IsPath(fields, q) ==>
      && IsPath(schema, up + q)
      && ColumnName("", up + q) == ColumnName(prefix, q)
      && Parents(up + q, 0) == parents + Parents(q, dMax)
  }

  lemma {:induction false} ContextAtRoot(schema: seq<Field>)
    ensures Context(schema, [], "", 0, [], schema)
  {
    forall q | IsPath(schema, q) ensures [] + q == q && [] + Parents(q, 0) == Parents(q, 0) {
    }
  }

  lemma {:induction false} ContextRest(
      schema: seq<Field>, up: Path, prefix: string, dMax: nat, parents: seq<Parent>, fields: seq<Field>)
    requires Context(schema, up, prefix, dMax, parents, fields) && fields != []
    requires DistinctNames(prefix, fields)
    ensures Context(schema, up, prefix, dMax, parents, [fields[0]])
    ensures Context(schema, up, prefix, dMax, parents, fields[1..])
    ensures DistinctNames(prefix, [fields[0]])
    ensures forall q :: IsPath(fields, q) ==> IsPath([fields[0]], q) || IsPath(fields[1..], q)
  {
    assert [fields[0]][1..] == [];
    forall q | IsPath([fields[0]], q) || IsPath(fields[1..], q) ensures IsPath(fields, q) {
    }
  }

  lemma {:induction false} ContextDown(
      schema: seq<Field>, up: Path, prefix: string, dMax: nat, parents: seq<Parent>, f: Field)
    requires Context(schema, up, prefix, dMax, parents, [f]) && f.ObjectField?
    ensures Context(schema, up + [f], prefix + f.name + ".", DefIn(f, dMax),
                    parents + [Parent(f.id, f.repeated, DefIn(f, dMax))], f.fields)
  {
    var p := Parent(f.id, f.repeated, DefIn(f, dMax));
    forall q | IsPath(f.fields, q)
      ensures IsPath(schema, up + [f] + q)
      ensures ColumnName("", up + [f] + q) == ColumnName(prefix + f.name + ".", q)
      ensures Parents(up + [f] + q, 0) == parents + [p] + Parents(q, DefIn(f, dMax))
    {
      var down := [f] + q;
      assert up + [f] + q == up + down;
      assert down[1..] == q && IsPath([f], down);
      assert Parents(down, dMax) == [p] + Parents(q, DefIn(f, dMax));
      assert parents + [p] + Parents(q, DefIn(f, dMax)) == parents + ([p] + Parents(q, DefIn(f, dMax)));
    }
  }

  /** The columns added are those of the given fields that are chosen. */
  ghost predicate Opened(before: map<string, ColumnState>, after: map<string, ColumnState>, prefix: string,
                          fields: seq<Field>, table: map<string, Stripe>, wanted: set<string>, up: Path)
  {
    && (forall n :: n in before ==> n in after && after[n] == before[n])
    && (forall n :: n in after && n !in before ==> n in NamesAll(prefix, fields) && Chosen(n, table, wanted))
    && (forall q :: IsPath(fields, q) && Chosen(ColumnName(prefix, q), table, wanted) ==>
          ColumnName(prefix, q) in after && after[ColumnName(prefix, q)].path == up + q)
  }

  lemma {:induction false} OpenedUp(before: map<string, ColumnState>, after: map<string, ColumnState>, prefix: string, f: Field,
                  table: map<string, Stripe>, wanted: set<string>, up: Path)
    requires f.ObjectField? && Opened(before, after, prefix + f.name + ".", f.fields, table, wanted, up + [f])
    ensures Opened(before, after, prefix, [f], table, wanted, up)
  {
    assert [f][1..] == [];
    forall q | IsPath([f], q) && Chosen(ColumnName(prefix, q), table, wanted)
      ensures ColumnName(prefix, q) in after && after[ColumnName(prefix, q)].path == up + q
    {
      assert q == [f] + q[1..];
      assert up + q == up + [f] + q[1..];
    }
  }

  lemma {:induction false} OpenedBoth(before: map<string, ColumnState>, middle: map<string, ColumnState>, after: map<string, ColumnState>,
                    prefix: string, fields: seq<Field>, table: map<string, Stripe>, wanted: set<string>, up: Path)
    requires fields != []
    requires Opened(before, middle, prefix, [fields[0]], table, wanted, up)
    requires Opened(middle, after, prefix, fields[1..], table, wanted, up)
    ensures Opened(before, after, prefix, fields, table, wanted, up)
  {
    assert NamesAll(prefix, fields) == NamesAll(prefix, [fields[0]]) + NamesAll(prefix, fields[1..]) by {
      assert [fields[0]][1..] == [];
      assert NamesAll(prefix, [fields[0]][1..]) == {};
    }
    forall q | IsPath(fields, q) && Chosen(ColumnName(prefix, q), table, wanted)
      ensures ColumnName(prefix, q) in after && after[ColumnName(prefix, q)].path == up + q
    {
      if q[0] == fields[0] {
        assert IsPath([fields[0]], q);
      } else {
        assert IsPath(fields[1..], q);
      }
    }
  }

  lemma {:induction false} OpenedLeaf(before: map<string, ColumnState>, after: map<string, ColumnState>, prefix: string, f: Field,
                    table: map<string, Stripe>, wanted: set<string>, up: Path)
    requires f.LeafField?
    requires var n := prefix + f.name;
             if Chosen(n, table, wanted) then n in after && after == before[n := after[n]] && after[n].path == up + [f]
             else after == before
    requires prefix + f.name !in before
    ensures Opened(before, after, prefix, [f], table, wanted, up)
  {
    assert [f][1..] == [];
    forall q | IsPath([f], q) ensures q == [f] {
    }
  }

  lemma {:induction false} LeafContext(schema: seq<Field>, up: Path, prefix: string, dMax: nat, parents: seq<Parent>, f: Field)
    requires Context(schema, up, prefix, dMax, parents, [f]) && f.LeafField?
    ensures IsPath(schema, up + [f]) && ColumnName("", up + [f]) == prefix + f.name
    ensures parents == Parents(up + [f], 0)
  {
    assert IsPath([f], [f]);
    assert parents + [] == parents;
  }

  lemma {:induction false} ChosenPaths(schema: seq<Field>, columns: map<string, ColumnState>, table: map<string, Stripe>, wanted: set<string>)
    requires Opened(map[], columns, "", schema, table, wanted, [])
    requires forall n :: n in columns ==> IsPath(schema, columns[n].path) && ColumnName("", columns[n].path) == n
    ensures forall p :: IsPath(schema, p) ==>
              (p in PathsOf(columns, columns.Keys) <==> Chosen(ColumnName("", p), table, wanted))
  {
    forall p | IsPath(schema, p) && Chosen(ColumnName("", p), table, wanted)
      ensures p in PathsOf(columns, columns.Keys)
    {
      assert [] + p == p;
    }
  }

  /** A cursor at the start of a column of the table. */
  method NewState(ghost schema: seq<Field>, ghost records: seq<seq<Message>>, ghost path: Path,
                  parents: seq<Parent>, fieldId: nat, stripe: Stripe)
    returns (state: ColumnState)
    requires IsPath(schema, path) && AllConform(schema, records)
    requires parents == Parents(path, 0) && fieldId == path[|path| - 1].id
    requires stripe == StripeOf(path, records)
    ensures fresh(state) && fresh(state.reader) && state.path == path && state.At(records)
  {
    StreamFits(schema, path, records);
    DecodeWritten(Stripe(MaxRep(path, 0), MaxDef(path, 0), [], [], []), Stream(path, records));
    MaxRepIs(path, 0);
    var reader := new ColumnReader(stripe);
    state := new ColumnState(reader, parents, fieldId, path);
  }

  class RecordMaterializer {
    ghost const schema: seq<Field>
    ghost var records: seq<seq<Message>>
    var columns: map<string, ColumnState>

    ghost function Readers(): set<ColumnReader>
      reads this`columns
    {
      set c | c in columns.Values :: c.reader
    }

    /** The columns in `todo` stand before the first of some records, the others behind it.
        No two columns share a cursor. */
    ghost predicate Visiting(now: seq<seq<Message>>, todo: set<string>)
      reads this`columns, columns.Values, Readers()
    {
      && DistinctIds(schema) && AllConform(schema, now)
      && (forall n :: n in columns ==> IsPath(schema, columns[n].path) && ColumnName("", columns[n].path) == n)
      && (forall n :: n in columns && n in todo ==> columns[n].At(now))
      && (forall n :: n in columns && n !in todo ==> now != [] && columns[n].At(now[1..]))
      && (forall n, k :: n in columns && k in columns && n != k ==>
            columns[n] != columns[k] && columns[n].reader != columns[k].reader)
    }

    ghost predicate Valid()
      reads this, columns.Values, Readers()
    {
      Visiting(records, columns.Keys)
    }

    /** The columns of the schema that are in the table and asked for; no names asks for all. */
    constructor (schema: seq<Field>, table: map<string, Stripe>, wanted: set<string>,
                 ghost records: seq<seq<Message>>)
      requires DistinctIds(schema) && DistinctNames("", schema)
      requires AllConform(schema, records) && Holds(schema, table, records)
      ensures Valid() && this.schema == schema && this.records == records
      ensures fresh(columns.Values) && fresh(Readers())
      ensures forall p :: IsPath(schema, p) ==>
                (p in PathsOf(columns, columns.Keys) <==> Chosen(ColumnName("", p), table, wanted))
    {
      this.schema, this.records := schema, records;
      columns := map[];
      new;
      hide Context, Opened, Parents, ColumnState.At, StripeOf, AllConform, DistinctIds, Holds, PathsOf, Chosen, NamesAll;
      ContextAtRoot(schema);
      CreateAll("", 0, [], schema, table, wanted, []);
      ChosenPaths(schema, columns, table, wanted);
    }

    method CreateAll(prefix: string, dMax: nat, parents: seq<Parent>, fields: seq<Field>,
                     table: map<string, Stripe>, wanted: set<string>, ghost up: Path)
      requires Visiting(records, columns.Keys) && Holds(schema, table, records)
      requires Context(schema, up, prefix, dMax, parents, fields)
      requires DistinctNames(prefix, fields) && NamesAll(prefix, fields) !! columns.Keys
      modifies this`columns
      ensures Opened(old(columns), columns, prefix, fields, table, wanted, up)
      ensures Visiting(records, columns.Keys)
      ensures fresh(columns.Values - old(columns.Values)) && fresh(Readers() - old(Readers()))
      decreases fields, |fields|
    {
      hide Context, Parents, ColumnState.At, StripeOf, AllConform, DistinctIds, Holds, Chosen;
      if fields == [] {
        return;
      }
      ContextRest(schema, up, prefix, dMax, parents, fields);
      CreateColumns(prefix, dMax, parents, fields[0], table, wanted, up);
      ghost var middle := columns;
      CreateAll(prefix, dMax, parents, fields[1..], table, wanted, up);
      OpenedBoth(old(columns), middle, columns, prefix, fields, table, wanted, up);
    }

    method CreateColumns(prefix: string, dMax: nat, parents: seq<Parent>, field: Field,
                         table: map<string, Stripe>, wanted: set<string>, ghost up: Path)
      requires Visiting(records, columns.Keys) && Holds(schema, table, records)
      requires Context(schema, up, prefix, dMax, parents, [field])
      requires DistinctNames(prefix, [field]) && Names(prefix, field) !! columns.Keys
      modifies this`columns
      ensures Opened(old(columns), columns, prefix, [field], table, wanted, up)
      ensures Visiting(records, columns.Keys)
      ensures fresh(columns.Values - old(columns.Values)) && fresh(Readers() - old(Readers()))
      decreases field
    {
      hide Context, Opened, Parents, ColumnState.At, StripeOf, AllConform, DistinctIds;
      var colname := prefix + field.name;
      var d := dMax;
      if field.repeated || field.optional {
        d := d + 1;
      }
      match field {
        case ObjectField(id, _, repeated, _, fields) =>
          ContextDown(schema, up, prefix, dMax, parents, field);
          CreateAll(colname + ".", d, parents + [Parent(id, repeated, d)], fields, table, wanted, up + [field]);
          OpenedUp(old(columns), columns, prefix, field, table, wanted, up);
        case LeafField(_, _, _, _, _) =>
          LeafContext(schema, up, prefix, dMax, parents, field);
          if Chosen(colname, table, wanted) {
            var state := NewState(schema, records, up + [field], parents, field.id, table[colname]);
            AddColumn(colname, state);
          }
          OpenedLeaf(old(columns), columns, prefix, field, table, wanted, up);
      }
    }

    method AddColumn(colname: string, state: ColumnState)
      requires Visiting(records, columns.Keys) && colname !in columns
      requires state.At(records) && IsPath(schema, state.path) && ColumnName("", state.path) == colname
      requires state !in columns.Values && state.reader !in Readers()
      modifies this`columns
      ensures Visiting(records, columns.Keys) && columns == old(columns)[colname := state]
    {
      hide ColumnState.At, IsPath, AllConform, DistinctIds;
      columns := columns[colname := state];
    }

    /** Visit one column, loading its part of the record. */
    method LoadColumn(n: string, record: seq<Message>, ghost now: seq<seq<Message>>, ghost todo: set<string>)
      returns (out: seq<Message>)
      requires Visiting(now, todo) && n in todo && n in columns && now != []
      requires Matches(record, schema, PathsOf(columns, columns.Keys - todo), now[0])
      modifies columns[n], columns[n].reader
      ensures Visiting(now, todo - {n})
      ensures Matches(out, schema, PathsOf(columns, columns.Keys - (todo - {n})), now[0])
    {
      hide Matches, Conforms, ColumnState.At, DistinctIds, PathsOf, ArePaths, IsPath;
      NotVisited(schema, columns, todo, n);
      ghost var padded;
      out, padded := columns[n].LoadNext(schema, now, PathsOf(columns, columns.Keys - todo), record);
    }

    method SkipColumn(n: string, ghost now: seq<seq<Message>>, ghost todo: set<string>)
      requires Visiting(now, todo) && n in todo && n in columns && now != []
      modifies columns[n], columns[n].reader
      ensures Visiting(now, todo - {n})
    {
      hide Conforms, ColumnState.At, DistinctIds, IsPath;
      columns[n].SkipNext(schema, now);
    }

    /**
      Load the next record. The columns are visited in an arbitrary order: `n` is any column
      not visited yet, as the iteration over a hash map gives it.
      */
    method NextRecord() returns (record: seq<Message>)
      requires Valid() && records != []
      modifies this`records, columns.Values, Readers()
      ensures Valid() && columns == old(columns) && records == old(records)[1..]
      ensures Matches(record, schema, PathsOf(columns, columns.Keys), old(records)[0])
    {
      hide Matches, Visiting, PathsOf;
      record := [];
      var todo := columns.Keys;
      MatchesNothing(schema, records[0]);
      NoneVisited(columns);
      while todo != {}
        invariant todo <= columns.Keys && columns == old(columns) && records == old(records)
        invariant Visiting(records, todo)
        invariant Matches(record, schema, PathsOf(columns, columns.Keys - todo), records[0])
      {
        var n :| n in todo;
        record := LoadColumn(n, record, records, todo);
        todo := todo - {n};
      }
      Visited(todo);
      records := records[1..];
    }

    lemma {:induction false} Visited(todo: set<string>)
      requires todo == {} && Visiting(records, todo) && records != []
      ensures columns.Keys - todo == columns.Keys
      ensures Visiting(records[1..], columns.Keys)
    {
    }

    /** Skipping leaves every column where loading the record would have left it. */
    method SkipRecord()
      requires Valid() && records != []
      modifies this`records, columns.Values, Readers()
      ensures Valid() && columns == old(columns) && records == old(records)[1..]
    {
      hide Visiting;
      var todo := columns.Keys;
      while todo != {}
        invariant todo <= columns.Keys && columns == old(columns) && records == old(records)
        invariant Visiting(records, todo)
      {
        var n :| n in todo;
        SkipColumn(n, records, todo);
        todo := todo - {n};
      }
      Visited(todo);
      records := records[1..];
    }
  }
}
