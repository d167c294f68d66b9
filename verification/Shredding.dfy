/**
  What adding a record writes, in two forms: the log of writes in the order in which the
  builder recurses over the schema, and the block of entries one column receives, defined
  along the path of that column alone. The two are proved to agree.
  */
module Shredding {
  import opened Wrappers
  import opened Messages
  import opened Columns
  import opened StringUtil

  datatype Put = Put(column: string, entry: Entry)

  datatype ShredError = MissingField | TypeError

  /** The writes made, and the error that stopped them if there was one. */
  datatype Shred = Shred(writes: seq<Put>, error: Option<ShredError>)

  function Then(a: Shred, b: Shred): Shred {
    if a.error.Some? then a else Shred(a.writes + b.writes, b.error)
  }

  /** Repetition and definition level of the values of a field below a given level. */
  function RepIn(f: Field, rmax: nat): nat {
    if f.repeated then rmax + 1 else rmax
  }

  function DefIn(f: Field, d: nat): nat {
    if f.optional || f.repeated then d + 1 else d
  }

  // ------------------------------------------------------------------
  // The builder's recursion
  // ------------------------------------------------------------------

  function ShredFields(r: nat, rmax: nat, d: nat, m: Message, prefix: string, fields: seq<Field>): Shred
    decreases fields, |fields|
  {
    if fields == [] then Shred([], None)
    else Then(ShredField(r, rmax, d, m, prefix, fields[0]), ShredFields(r, rmax, d, m, prefix, fields[1..]))
  }

  function ShredField(r: nat, rmax: nat, d: nat, m: Message, prefix: string, f: Field): Shred
    decreases f, 2, 0
  {
    if m.Value? then Shred([], Some(TypeError))
    else
      var occ := Occ(m.children, f.id);
      if occ == [] then
        if f.optional || f.repeated then Shred(Nulls(r, d, prefix + f.name, f), None)
        else Shred([], Some(MissingField))
      else ShredOcc(r, RepIn(f, rmax), DefIn(f, d), occ, prefix, f)
  }

  function ShredOcc(r: nat, rmax: nat, d: nat, occ: seq<Message>, prefix: string, f: Field): Shred
    decreases f, 1, |occ|
  {
    if occ == [] then Shred([], None)
    else Then(ShredElem(r, rmax, d, occ[0], prefix, f), ShredOcc(rmax, rmax, d, occ[1..], prefix, f))
  }

  function ShredElem(r: nat, rmax: nat, d: nat, o: Message, prefix: string, f: Field): Shred
    decreases f, 0, 0
  {
    match f
    case ObjectField(_, name, _, _, fields) => ShredFields(r, rmax, d, o, prefix + name + ".", fields)
    case LeafField(_, name, _, _, kind) =>
      if o.Object? || Stored(kind, o.scalar).None? then Shred([], Some(TypeError))
      else Shred([Put(prefix + name, Entry(r, d, Stored(kind, o.scalar)))], None)
  }

  function Nulls(r: nat, d: nat, column: string, f: Field): seq<Put>
    decreases f, 0
  {
    match f
    case ObjectField(_, _, _, _, fields) => NullsAll(r, d, column, fields)
    case LeafField(_, _, _, _, _) => [Put(column, Entry(r, d, None))]
  }

  function NullsAll(r: nat, d: nat, column: string, fields: seq<Field>): seq<Put>
    decreases fields, |fields|
  {
    if fields == [] then []
    else Nulls(r, d, column + "." + fields[0].name, fields[0]) + NullsAll(r, d, column, fields[1..])
  }

  // ------------------------------------------------------------------
  // The block of one column
  // ------------------------------------------------------------------

  /** The entries one record contributes to the column at `path`. */
  ghost function Block(path: Path, r: nat, rmax: nat, d: nat, ms: seq<Message>): seq<Entry>
    requires path != []
    decreases |path|, 1, 0
  {
    var occ := Occ(ms, path[0].id);
    if occ == [] then [Entry(r, d, None)]
    else OccBlock(path, r, RepIn(path[0], rmax), DefIn(path[0], d), occ)
  }

  ghost function OccBlock(path: Path, r: nat, rmax: nat, d: nat, occ: seq<Message>): seq<Entry>
    requires path != []
    decreases |path|, 0, |occ|
  {
    if occ == [] then []
    else ElemBlock(path, r, rmax, d, occ[0]) + OccBlock(path, rmax, rmax, d, occ[1..])
  }

  ghost function ElemBlock(path: Path, r: nat, rmax: nat, d: nat, o: Message): seq<Entry>
    requires path != []
    decreases |path|, 0, 0
  {
    if |path| == 1 then
      [Entry(r, d, if o.Value? && path[0].LeafField? then Stored(path[0].kind, o.scalar) else None)]
    else Block(path[1..], r, rmax, d, if o.Object? then o.children else [])
  }

  /** Largest repetition and definition level of the column at `path`. */
  function MaxRep(path: Path, r: nat): nat {
    if path == [] then r else MaxRep(path[1..], RepIn(path[0], r))
  }

  function MaxDef(path: Path, d: nat): nat {
    if path == [] then d else MaxDef(path[1..], DefIn(path[0], d))
  }

  predicate IsRepeated(f: Field) {
    f.repeated
  }

  predicate IsNullable(f: Field) {
    f.optional || f.repeated
  }

  function HowMany(path: Path, p: Field -> bool): nat {
    if path == [] then 0 else (if p(path[0]) then 1 else 0) + HowMany(path[1..], p)
  }

  /** The largest levels count the repeated fields of a path, and the optional or repeated ones. */
  lemma {:induction false} LevelsAreCounts(path: Path, r: nat, d: nat)
    ensures MaxRep(path, r) == r + HowMany(path, IsRepeated)
    ensures MaxDef(path, d) == d + HowMany(path, IsNullable)
  {
    if path != [] {
      LevelsAreCounts(path[1..], RepIn(path[0], r), DefIn(path[0], d));
    }
  }

  function ColumnName(prefix: string, path: Path): string
    requires path != []
    decreases |path|
  {
    if |path| == 1 then prefix + path[0].name
    else ColumnName(prefix + path[0].name + ".", path[1..])
  }

  /** A column is called by the names of its fields, with dots between them. */
  lemma {:induction false} ColumnNameIsJoined(prefix: string, path: Path)
    requires path != []
    ensures ColumnName(prefix, path) == prefix + Joined(seq(|path|, i requires 0 <= i < |path| => path[i].name), ".")
    decreases |path|
  {
    var names := seq(|path|, i requires 0 <= i < |path| => path[i].name);
    if |path| > 1 {
      var rest := path[1..];
      ColumnNameIsJoined(prefix + path[0].name + ".", rest);
      assert names[1..] == seq(|rest|, i requires 0 <= i < |rest| => rest[i].name);
      assert prefix + path[0].name + "." + Joined(names[1..], ".") == prefix + (path[0].name + "." + Joined(names[1..], "."));
    }
  }

  lemma {:induction false} LevelsGrow(path: Path, r: nat, d: nat)
    ensures r <= MaxRep(path, r) && d <= MaxDef(path, d)
    decreases |path|
  {
    if path != [] {
      LevelsGrow(path[1..], RepIn(path[0], r), DefIn(path[0], d));
    }
  }

  /** A block starts at the level it was asked for, repeats only below it, stays within the
      maximal levels and reaches the maximal definition level exactly where there is a value. */
  ghost predicate WellFormed(es: seq<Entry>, r: nat, rmax: nat, rTop: nat, dTop: nat) {
    && es != []
    && es[0].r == r
    && (forall k :: 1 <= k < |es| ==> rmax < es[k].r)
    && (forall k :: 0 <= k < |es| ==> Fits(es[k], rTop, dTop))
  }

  lemma {:induction false} BlockWellFormed(fields: seq<Field>, path: Path, r: nat, rmax: nat, d: nat, ms: seq<Message>)
    requires IsPath(fields, path) && Conforms(fields, ms, true) && r <= rmax
    ensures WellFormed(Block(path, r, rmax, d, ms), r, rmax, MaxRep(path, rmax), MaxDef(path, d))
    ensures forall e :: e in Block(path, r, rmax, d, ms) ==> e.d >= d
    decreases |path|, 1, 0
  {
    var f := path[0];
    var i :| 0 <= i < |fields| && fields[i] == f;
    assert ConformsField(f, Occ(ms, f.id), true);
    var occ := Occ(ms, f.id);
    LevelsGrow(path[1..], RepIn(f, rmax), DefIn(f, d));
    if occ != [] {
      OccBlockWellFormed(path, r, rmax, d, occ);
    }
  }

  // ------------------------------------------------------------------
  // Fields that occur more often than they may
  // ------------------------------------------------------------------

  /** The entries that start something at this level or above it: a record at level 0, an element
      of the repeated field that is the level-th on the path otherwise. */
  ghost function LevelStarts(es: seq<Entry>, level: nat): nat {
    if es == [] then 0 else (if es[0].r <= level then 1 else 0) + LevelStarts(es[1..], level)
  }

  lemma {:induction false} LevelStartsConcat(a: seq<Entry>, b: seq<Entry>, level: nat)
    ensures LevelStarts(a + b, level) == LevelStarts(a, level) + LevelStarts(b, level)
  {
    if a == [] {
      assert a + b == b;
    } else {
      assert (a + b)[1..] == a[1..] + b;
      LevelStartsConcat(a[1..], b, level);
    }
  }

  /** How often the fields in front of the first repeated one occur along a path: once for every
      occurrence, and also where nothing occurs. */
  ghost function Parts(path: Path, ms: seq<Message>): nat
    requires path != []
    decreases |path|, 1, 0
  {
    var occ := Occ(ms, path[0].id);
    if occ == [] || path[0].repeated then 1 else PartsOf(path, occ)
  }

  ghost function PartsOf(path: Path, occ: seq<Message>): nat
    requires path != []
    decreases |path|, 0, |occ|
  {
    if occ == [] then 0
    else (if |path| == 1 then 1 else Parts(path[1..], Inside(occ[0]))) + PartsOf(path, occ[1..])
  }

  function Inside(o: Message): seq<Message> {
    if o.Object? then o.children else []
  }

  /** No field before the first repeated one on the path occurs twice along it. */
  ghost predicate OccursOnce(path: Path, ms: seq<Message>)
    requires path != []
    decreases |path|
  {
    path[0].repeated ||
    var occ := Occ(ms, path[0].id);
    |occ| <= 1 && (|occ| == 1 && |path| > 1 ==> OccursOnce(path[1..], Inside(occ[0])))
  }

  /** What a record writes to the column at a path starts as often as the fields before the first
      repeated one occur along it: at level 0 that many records, below a repeated field that many of
      its elements. The first entry has the level that was asked for, and what starts behind it has
      the level of that repeated field. */
  lemma {:induction false} BlockStarts(path: Path, r: nat, rmax: nat, d: nat, ms: seq<Message>)
    requires path != [] && r <= rmax
    ensures var es := Block(path, r, rmax, d, ms);
            && LevelStarts(es, rmax) == Parts(path, ms)
            && es != [] && es[0].r == r && forall k :: 1 <= k < |es| ==> rmax <= es[k].r
    decreases |path|, 1, 0
  {
    var occ := Occ(ms, path[0].id);
    if occ != [] {
      OccStarts(path, r, RepIn(path[0], rmax), DefIn(path[0], d), occ);
      if path[0].repeated {
        OnlyFirstStarts(Block(path, r, rmax, d, ms), rmax);
      }
    }
  }

  lemma {:induction false} OccStarts(path: Path, r: nat, rmax: nat, d: nat, occ: seq<Message>)
    requires path != [] && r <= rmax
    ensures var es := OccBlock(path, r, rmax, d, occ);
            && LevelStarts(es, rmax) == PartsOf(path, occ)
            && (occ != [] ==> es != [] && es[0].r == r) && forall k :: 1 <= k < |es| ==> rmax <= es[k].r
    decreases |path|, 0, |occ|
  {
    if occ != [] {
      var first, rest := ElemBlock(path, r, rmax, d, occ[0]), OccBlock(path, rmax, rmax, d, occ[1..]);
      if |path| > 1 {
        BlockStarts(path[1..], r, rmax, d, Inside(occ[0]));
      } else {
        assert first[1..] == [];
      }
      OccStarts(path, rmax, rmax, d, occ[1..]);
      LevelStartsConcat(first, rest, rmax);
      var es := first + rest;
      forall k | 1 <= k < |es| ensures rmax <= es[k].r {
        if k >= |first| { assert es[k] == rest[k - |first|]; }
      }
    }
  }

  lemma {:induction false} OnlyFirstStarts(es: seq<Entry>, level: nat)
    requires es != [] && es[0].r <= level && forall k :: 1 <= k < |es| ==> level < es[k].r
    ensures LevelStarts(es, level) == 1
  {
    NoneStarts(es[1..], level);
  }

  lemma {:induction false} NoneStarts(es: seq<Entry>, level: nat)
    requires forall k :: 0 <= k < |es| ==> level < es[k].r
    ensures LevelStarts(es, level) == 0
  {
    if es != [] {
      NoneStarts(es[1..], level);
    }
  }

  lemma {:induction false} PartsIff(path: Path, ms: seq<Message>)
    requires path != []
    ensures Parts(path, ms) >= 1
    ensures Parts(path, ms) == 1 <==> OccursOnce(path, ms)
    decreases |path|, 1, 0
  {
    PartsOfIff(path, Occ(ms, path[0].id));
  }

  lemma {:induction false} PartsOfIff(path: Path, occ: seq<Message>)
    requires path != []
    ensures PartsOf(path, occ) >= |occ|
    ensures PartsOf(path, occ) == |occ|
            <==> |path| > 1 ==> forall k :: 0 <= k < |occ| ==> OccursOnce(path[1..], Inside(occ[k]))
    decreases |path|, 0, |occ|
  {
    if occ != [] {
      PartsOfIff(path, occ[1..]);
      if |path| > 1 {
        PartsIff(path[1..], Inside(occ[0]));
        assert (forall k :: 0 <= k < |occ| ==> OccursOnce(path[1..], Inside(occ[k])))
          <==> OccursOnce(path[1..], Inside(occ[0]))
               && forall k :: 0 <= k < |occ[1..]| ==> OccursOnce(path[1..], Inside(occ[1..][k]))
        by {
          assert forall k :: 0 < k < |occ| ==> occ[k] == occ[1..][k - 1];
        }
      }
    }
  }

  /** A record that is accepted starts one record in the column at a path exactly if no field before
      the first repeated one on the path occurs twice along it; otherwise it starts more. */
  lemma {:induction false} OccurrencesStartRecords(fields: seq<Field>, path: Path, ms: seq<Message>)
    requires IsPath(fields, path) && Conforms(fields, ms, false)
    ensures var n := LevelStarts(Block(path, 0, 0, 0, ms), 0);
            n == Parts(path, ms) && n >= 1 && (n == 1 <==> OccursOnce(path, ms))
  {
    BlockStarts(path, 0, 0, 0, ms);
    PartsIff(path, ms);
  }

  /** Of a repeated field, every occurrence is an element exactly if the same holds below it for each
      of them; otherwise there are more elements. None of them starts a record but the first. */
  lemma {:induction false} OccurrencesStartElements(path: Path, r: nat, rmax: nat, d: nat, ms: seq<Message>)
    requires path != [] && path[0].repeated && Occ(ms, path[0].id) != [] && r <= rmax
    ensures var es, occ := Block(path, r, rmax, d, ms), Occ(ms, path[0].id);
            && LevelStarts(es, rmax) == 1
            && LevelStarts(es, rmax + 1) == PartsOf(path, occ) >= |occ|
            && (LevelStarts(es, rmax + 1) == |occ|
                <==> |path| > 1 ==> forall k :: 0 <= k < |occ| ==> OccursOnce(path[1..], Inside(occ[k])))
  {
    BlockStarts(path, r, rmax, d, ms);
    OccStarts(path, r, rmax + 1, DefIn(path[0], d), Occ(ms, path[0].id));
    PartsOfIff(path, Occ(ms, path[0].id));
  }

  /** One field that occurs twice: at the top there is a record too many, inside the only element of
      a repeated object an element too many and no record. */
  lemma {:induction false} TwiceAtTopAndBelow(a: Field, b: Field, x: Message)
    requires a.ObjectField? && a.repeated && b.LeafField? && !b.repeated && x.id == b.id
    ensures LevelStarts(Block([b], 0, 0, 0, [x, x]), 0) == 2
    ensures var es := Block([a, b], 0, 0, 0, [Object(a.id, [x, x])]); LevelStarts(es, 0) == 1 && LevelStarts(es, 1) == 2
  {
    var elem := Object(a.id, [x, x]);
    TwoOccur(x);
    assert [elem][1..] == [] && Occ([elem], a.id) == [elem];
    BlockStarts([b], 0, 0, 0, [x, x]);
    TwoParts(b, x);
    OccurrencesStartElements([a, b], 0, 0, 0, [elem]);
    assert [a, b][1..] == [b];
    assert PartsOf([a, b], [elem]) == Parts([b], [x, x]) + PartsOf([a, b], []);
  }

  lemma {:induction false} TwoOccur(x: Message)
    ensures Occ([x, x], x.id) == [x, x]
  {
    assert [x, x][1..] == [x] && [x][1..] == [];
    assert Occ([x], x.id) == [x];
  }

  lemma {:induction false} TwoParts(b: Field, x: Message)
    requires b.LeafField? && !b.repeated && x.id == b.id
    ensures Parts([b], [x, x]) == 2
  {
    TwoOccur(x);
    assert [x, x][1..] == [x] && [x][1..] == [];
    assert PartsOf([b], [x]) == 1;
  }

  /** In records whose fields occur no more often than they may, nothing occurs twice. */
  lemma {:induction false} ConformingOccursOnce(fields: seq<Field>, path: Path, ms: seq<Message>)
    requires IsPath(fields, path) && Conforms(fields, ms, true)
    ensures OccursOnce(path, ms)
    decreases |path|
  {
    var f := path[0];
    var i :| 0 <= i < |fields| && fields[i] == f;
    assert ConformsField(f, Occ(ms, f.id), true);
    var occ := Occ(ms, f.id);
    if !f.repeated && occ != [] && f.ObjectField? {
      assert ConformsElem(f, occ[0], true);
      ConformingOccursOnce(f.fields, path[1..], Inside(occ[0]));
    }
  }

  lemma {:induction false} OccBlockWellFormed(path: Path, r: nat, rmax: nat, d: nat, occ: seq<Message>)
    requires path != [] && occ != [] && r <= RepIn(path[0], rmax)
    requires path[0].LeafField? ==> |path| == 1
    requires path[0].ObjectField? ==> |path| > 1 && IsPath(path[0].fields, path[1..])
    requires forall k :: 0 <= k < |occ| ==> ConformsElem(path[0], occ[k], true)
    requires !path[0].repeated ==> |occ| == 1
    ensures var es := OccBlock(path, r, RepIn(path[0], rmax), DefIn(path[0], d), occ);
            && WellFormed(es, r, rmax, MaxRep(path, rmax), MaxDef(path, d))
            && forall e :: e in es ==> e.d >= DefIn(path[0], d)
    decreases |path|, 0, |occ|
  {
    var f := path[0];
    var first := ElemBlock(path, r, RepIn(f, rmax), DefIn(f, d), occ[0]);
    assert ConformsElem(f, occ[0], true);
    if |path| > 1 {
      BlockWellFormed(f.fields, path[1..], r, RepIn(f, rmax), DefIn(f, d), occ[0].children);
    } else {
      assert MaxRep(path, rmax) == RepIn(f, rmax) && MaxDef(path, d) == DefIn(f, d);
    }
    if |occ| > 1 {
      LevelsGrow(path[1..], RepIn(f, rmax), DefIn(f, d));
      OccBlockWellFormed(path, RepIn(f, rmax), rmax, d, occ[1..]);
      var rest := OccBlock(path, RepIn(f, rmax), RepIn(f, rmax), DefIn(f, d), occ[1..]);
      var es := first + rest;
      forall k | 1 <= k < |es| ensures rmax < es[k].r {
        if k >= |first| { assert es[k] == rest[k - |first|]; }
      }
    } else {
      assert occ[1..] == [];
    }
  }

  // ------------------------------------------------------------------
  // Adding a record succeeds exactly on conforming records
  // ------------------------------------------------------------------

  lemma {:induction false} FieldsAccepted(r: nat, rmax: nat, d: nat, m: Message, prefix: string, fields: seq<Field>)
    ensures ShredFields(r, rmax, d, m, prefix, fields).error.None? <==>
            (fields == [] || (m.Object? && Conforms(fields, m.children, false)))
    decreases fields, |fields|
  {
    if fields != [] {
      FieldAccepted(r, rmax, d, m, prefix, fields[0]);
      FieldsAccepted(r, rmax, d, m, prefix, fields[1..]);
      if m.Object? {
        assert Conforms(fields, m.children, false) <==>
               ConformsField(fields[0], Occ(m.children, fields[0].id), false) && Conforms(fields[1..], m.children, false)
        by {
          assert forall i :: 0 < i < |fields| ==> fields[i] == fields[1..][i - 1];
        }
      }
    }
  }

  lemma {:induction false} FieldAccepted(r: nat, rmax: nat, d: nat, m: Message, prefix: string, f: Field)
    ensures ShredField(r, rmax, d, m, prefix, f).error.None? <==>
            m.Object? && ConformsField(f, Occ(m.children, f.id), false)
    decreases f, 2, 0
  {
    if m.Object? {
      OccAccepted(r, RepIn(f, rmax), DefIn(f, d), Occ(m.children, f.id), prefix, f);
    }
  }

  lemma {:induction false} OccAccepted(r: nat, rmax: nat, d: nat, occ: seq<Message>, prefix: string, f: Field)
    ensures ShredOcc(r, rmax, d, occ, prefix, f).error.None? <==>
            forall k :: 0 <= k < |occ| ==> ConformsElem(f, occ[k], false)
    decreases f, 1, |occ|
  {
    if occ != [] {
      if f.ObjectField? {
        FieldsAccepted(r, rmax, d, occ[0], prefix + f.name + ".", f.fields);
      }
      OccAccepted(rmax, rmax, d, occ[1..], prefix, f);
      assert (forall k :: 0 <= k < |occ| ==> ConformsElem(f, occ[k], false)) <==>
             ConformsElem(f, occ[0], false) && forall k :: 0 <= k < |occ[1..]| ==> ConformsElem(f, occ[1..][k], false)
      by {
        assert forall k :: 0 < k < |occ| ==> occ[k] == occ[1..][k - 1];
      }
    }
  }

  // ------------------------------------------------------------------
  // The log of writes, column by column
  // ------------------------------------------------------------------

  /** The entries of a log that go to one column. */
  function Project(ws: seq<Put>, column: string): seq<Entry> {
    if ws == [] then []
    else (if ws[0].column == column then [ws[0].entry] else []) + Project(ws[1..], column)
  }

  lemma {:induction false} ProjectConcat(a: seq<Put>, b: seq<Put>, column: string)
    ensures Project(a + b, column) == Project(a, column) + Project(b, column)
  {
    if a == [] {
      assert a + b == b;
    } else {
      assert (a + b)[1..] == a[1..] + b;
      ProjectConcat(a[1..], b, column);
      var first := if a[0].column == column then [a[0].entry] else [];
      assert first + (Project(a[1..], column) + Project(b, column)) == first + Project(a[1..], column) + Project(b, column);
    }
  }

  /** The column names of a field and of a list of fields. */
  function Names(prefix: string, f: Field): set<string>
    decreases f, 0
  {
    match f
    case LeafField(_, name, _, _, _) => {prefix + name}
    case ObjectField(_, name, _, _, fields) => NamesAll(prefix + name + ".", fields)
  }

  function NamesAll(prefix: string, fields: seq<Field>): set<string>
    decreases fields, |fields|
  {
    if fields == [] then {} else Names(prefix, fields[0]) + NamesAll(prefix, fields[1..])
  }

  /** No two leaves of the schema share a column name. */
  ghost predicate DistinctNames(prefix: string, fields: seq<Field>)
    decreases fields, |fields|
  {
    fields != [] ==>
      && Names(prefix, fields[0]) !! NamesAll(prefix, fields[1..])
      && (fields[0].ObjectField? ==> DistinctNames(prefix + fields[0].name + ".", fields[0].fields))
      && DistinctNames(prefix, fields[1..])
  }

  lemma {:induction false} PathHasName(prefix: string, fields: seq<Field>, path: Path)
    requires IsPath(fields, path)
    ensures ColumnName(prefix, path) in NamesAll(prefix, fields)
    ensures ColumnName(prefix, path) in Names(prefix, path[0])
    decreases |path|, |fields|
  {
    if path[0].ObjectField? {
      PathHasName(prefix + path[0].name + ".", path[0].fields, path[1..]);
    }
    if path[0] != fields[0] {
      PathHasName(prefix, fields[1..], path);
    }
  }

  lemma {:induction false} NullsElsewhere(r: nat, d: nat, prefix: string, f: Field, column: string)
    requires column !in Names(prefix, f)
    ensures Project(Nulls(r, d, prefix + f.name, f), column) == []
    decreases f, 0
  {
    if f.ObjectField? {
      NullsAllElsewhere(r, d, prefix + f.name, f.fields, column);
    }
  }

  lemma {:induction false} NullsAllElsewhere(r: nat, d: nat, up: string, fields: seq<Field>, column: string)
    requires column !in NamesAll(up + ".", fields)
    ensures Project(NullsAll(r, d, up, fields), column) == []
    decreases fields, |fields|
  {
    if fields != [] {
      NullsElsewhere(r, d, up + ".", fields[0], column);
      NullsAllElsewhere(r, d, up, fields[1..], column);
      ProjectConcat(Nulls(r, d, up + "." + fields[0].name, fields[0]), NullsAll(r, d, up, fields[1..]), column);
    }
  }

  lemma {:induction false} FieldsElsewhere(
      r: nat, rmax: nat, d: nat, m: Message, prefix: string, fields: seq<Field>, column: string)
    requires column !in NamesAll(prefix, fields)
    ensures Project(ShredFields(r, rmax, d, m, prefix, fields).writes, column) == []
    decreases fields, |fields|
  {
    if fields != [] {
      var a := ShredField(r, rmax, d, m, prefix, fields[0]);
      var b := ShredFields(r, rmax, d, m, prefix, fields[1..]);
      FieldElsewhere(r, rmax, d, m, prefix, fields[0], column);
      FieldsElsewhere(r, rmax, d, m, prefix, fields[1..], column);
      ProjectConcat(a.writes, b.writes, column);
    }
  }

  lemma {:induction false} FieldElsewhere(
      r: nat, rmax: nat, d: nat, m: Message, prefix: string, f: Field, column: string)
    requires column !in Names(prefix, f)
    ensures Project(ShredField(r, rmax, d, m, prefix, f).writes, column) == []
    decreases f, 2, 0
  {
    if m.Object? {
      NullsElsewhere(r, d, prefix, f, column);
      OccElsewhere(r, RepIn(f, rmax), DefIn(f, d), Occ(m.children, f.id), prefix, f, column);
    }
  }

  lemma {:induction false} OccElsewhere(
      r: nat, rmax: nat, d: nat, occ: seq<Message>, prefix: string, f: Field, column: string)
    requires column !in Names(prefix, f)
    ensures Project(ShredOcc(r, rmax, d, occ, prefix, f).writes, column) == []
    decreases f, 1, |occ|
  {
    if occ != [] {
      var a := ShredElem(r, rmax, d, occ[0], prefix, f);
      var b := ShredOcc(rmax, rmax, d, occ[1..], prefix, f);
      if f.ObjectField? {
        FieldsElsewhere(r, rmax, d, occ[0], prefix + f.name + ".", f.fields, column);
      }
      OccElsewhere(rmax, rmax, d, occ[1..], prefix, f, column);
      ProjectConcat(a.writes, b.writes, column);
    }
  }

  /** Null entries reach each column below a missing field exactly once. */
  lemma {:induction false} NullsOfColumn(r: nat, d: nat, prefix: string, path: Path)
    requires path != []
    requires if path[0].LeafField? then |path| == 1 else |path| > 1 && IsPath(path[0].fields, path[1..])
    requires path[0].ObjectField? ==> DistinctNames(prefix + path[0].name + ".", path[0].fields)
    ensures Project(Nulls(r, d, prefix + path[0].name, path[0]), ColumnName(prefix, path)) == [Entry(r, d, None)]
    decreases |path|, 0, 0
  {
    if path[0].ObjectField? {
      NullsAllOfColumn(r, d, prefix + path[0].name, path[0].fields, path[1..]);
    }
  }

  lemma {:induction false} NullsAllOfColumn(r: nat, d: nat, up: string, fields: seq<Field>, path: Path)
    requires IsPath(fields, path) && DistinctNames(up + ".", fields)
    ensures Project(NullsAll(r, d, up, fields), ColumnName(up + ".", path)) == [Entry(r, d, None)]
    decreases |path|, 1, |fields|
  {
    var column := ColumnName(up + ".", path);
    var a, b := Nulls(r, d, up + "." + fields[0].name, fields[0]), NullsAll(r, d, up, fields[1..]);
    PathHasName(up + ".", fields, path);
    ProjectConcat(a, b, column);
    if path[0] == fields[0] {
      NullsOfColumn(r, d, up + ".", path);
      NullsAllElsewhere(r, d, up, fields[1..], column);
    } else {
      PathHasName(up + ".", fields[1..], path);
      NullsElsewhere(r, d, up + ".", fields[0], column);
      NullsAllOfColumn(r, d, up, fields[1..], path);
    }
  }

  /** The builder's writes to a column are the block of its path, whatever else the recursion
      over the schema writes in between. */
  lemma {:induction false} FieldsOfColumn(
      r: nat, rmax: nat, d: nat, m: Message, prefix: string, fields: seq<Field>, path: Path)
    requires IsPath(fields, path) && DistinctNames(prefix, fields)
    requires ShredFields(r, rmax, d, m, prefix, fields).error.None?
    ensures m.Object?
    ensures Project(ShredFields(r, rmax, d, m, prefix, fields).writes, ColumnName(prefix, path))
            == Block(path, r, rmax, d, m.children)
    decreases |path|, 2, |fields|
  {
    var column := ColumnName(prefix, path);
    var a, b := ShredField(r, rmax, d, m, prefix, fields[0]), ShredFields(r, rmax, d, m, prefix, fields[1..]);
    PathHasName(prefix, fields, path);
    ProjectConcat(a.writes, b.writes, column);
    if path[0] == fields[0] {
      FieldsElsewhere(r, rmax, d, m, prefix, fields[1..], column);
      var occ := Occ(m.children, path[0].id);
      if occ == [] {
        NullsOfColumn(r, d, prefix, path);
      } else {
        OccOfColumn(r, RepIn(path[0], rmax), DefIn(path[0], d), occ, prefix, path);
      }
    } else {
      PathHasName(prefix, fields[1..], path);
      FieldElsewhere(r, rmax, d, m, prefix, fields[0], column);
      FieldsOfColumn(r, rmax, d, m, prefix, fields[1..], path);
    }
  }

  lemma {:induction false} OccOfColumn(r: nat, rmax: nat, d: nat, occ: seq<Message>, prefix: string, path: Path)
    requires path != []
    requires if path[0].LeafField? then |path| == 1 else |path| > 1 && IsPath(path[0].fields, path[1..])
    requires path[0].ObjectField? ==> DistinctNames(prefix + path[0].name + ".", path[0].fields)
    requires ShredOcc(r, rmax, d, occ, prefix, path[0]).error.None?
    ensures Project(ShredOcc(r, rmax, d, occ, prefix, path[0]).writes, ColumnName(prefix, path))
            == OccBlock(path, r, rmax, d, occ)
    decreases |path|, 1, |occ|
  {
    if occ != [] {
      var f := path[0];
      var a, b := ShredElem(r, rmax, d, occ[0], prefix, f), ShredOcc(rmax, rmax, d, occ[1..], prefix, f);
      ProjectConcat(a.writes, b.writes, ColumnName(prefix, path));
      OccOfColumn(rmax, rmax, d, occ[1..], prefix, path);
      if f.ObjectField? {
        FieldsOfColumn(r, rmax, d, occ[0], prefix + f.name + ".", f.fields, path[1..]);
      }
    }
  }
}
