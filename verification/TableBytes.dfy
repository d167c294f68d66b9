/**
  Columns as bytes: how the values of every type are stored, and a table as a file.
  */
module TableBytes {
  import opened Wrappers
  import opened Messages
  import C = Columns
  import opened BitPack
  import opened TableFile

  // ------------------------------------------------------------------
  // Values
  // ------------------------------------------------------------------

  /** Texts are bytes, and their length has 32 bits. */
  predicate CanStore(v: Scalar) {
    v.Str? ==> IsText(v.text) && |v.text| < 0x1_0000_0000
  }

  /** The type code in the file. */
  function KindCode(kind: Kind): nat {
    match kind
    case BOOLEAN => 1
    case UINT32 => 11
    case UINT64 => 12
    case DATETIME => 13
    case DOUBLE => 14
    case STRING => 100
  }

  function KindFor(code: nat): Option<Kind> {
    if code == 1 then Some(BOOLEAN)
    else if code == 11 then Some(UINT32)
    else if code == 12 then Some(UINT64)
    else if code == 13 then Some(DATETIME)
    else if code == 14 then Some(DOUBLE)
    else if code == 100 then Some(STRING)
    else None
  }

  /** What a writer asks for beyond its data. */
  function Reserved(kind: Kind): nat {
    match kind
    case UINT32 => 4
    case UINT64 => 8
    case DOUBLE => 8
    case _ => 0
  }

  /** A value of any type but truth values, which are packed. */
  function ScalarBytes(v: Scalar): seq<Byte>
    requires CanStore(v)
  {
    match v
    case Str(text) => Le(|text|, 4) + TextBytes(text)
    case U32(n) => Le(n, 4)
    case U64(n) => Le(n, 8)
    case Time(micros) => VarUInt(micros)
    case Dbl(bits) => Le(bits, 8)
    case Bool(_) => []
  }

  function ReadScalar(kind: Kind, s: seq<Byte>): Read<Scalar> {
    match kind
    case STRING =>
      var length := ReadInt(s, 4);
      if length.Overflow? then Overflow
      else
        var text := ReadBytes(length.rest, length.value);
        if text.Overflow? then Overflow else Got(Str(TextOf(text.value)), text.rest)
    case UINT32 =>
      var n := ReadInt(s, 4);
      if n.Overflow? then Overflow else Got(U32(n.value % 0x1_0000_0000), n.rest)
    case UINT64 =>
      var n := ReadInt(s, 8);
      if n.Overflow? then Overflow else Got(U64(n.value % 0x1_0000_0000_0000_0000), n.rest)
    case DATETIME =>
      var n := ReadVarUInt(s);
      if n.Overflow? then Overflow else Got(Time(n.value % 0x1_0000_0000_0000_0000), n.rest)
    case DOUBLE =>
      var n := ReadInt(s, 8);
      if n.Overflow? then Overflow else Got(Dbl(n.value % 0x1_0000_0000_0000_0000), n.rest)
    case BOOLEAN => Overflow
  }

  lemma {:induction false} Widths()
    ensures Limit(4) == 0x1_0000_0000 && Limit(8) == 0x1_0000_0000_0000_0000
  {
    assert Limit(2) == 0x1_0000;
    assert Limit(4) == 256 * (256 * Limit(2));
    assert Limit(6) == 256 * (256 * Limit(4));
    assert Limit(8) == 256 * (256 * Limit(6));
  }

  /** A value is read back in front of whatever follows. */
  lemma {:induction false} ScalarBack(kind: Kind, v: Scalar, rest: seq<Byte>)
    requires HasKind(kind, v) && CanStore(v) && kind != BOOLEAN
    ensures ReadScalar(kind, ScalarBytes(v) + rest) == Got(v, rest)
  {
    hide Limit, Le, FromLe, VarUInt, ReadVarUInt, ReadInt, ReadBytes;
    Widths();
    match v
    case Str(text) =>
      var bytes := TextBytes(text);
      assert Le(|text|, 4) + bytes + rest == Le(|text|, 4) + (bytes + rest);
      ReadBack(|text|, 4, bytes + rest);
      BytesBack(bytes, rest);
      TextBack(text);
    case U32(n) => ReadBack(n, 4, rest);
    case U64(n) => ReadBack(n, 8, rest);
    case Time(micros) => VarUIntBack(micros, rest);
    case Dbl(bits) => ReadBack(bits, 8, rest);
  }

  // ------------------------------------------------------------------
  // The data of a column
  // ------------------------------------------------------------------

  ghost predicate AreData(kind: Kind, data: seq<Scalar>) {
    forall i :: 0 <= i < |data| ==> HasKind(kind, data[i]) && CanStore(data[i])
  }

  function DataBytes(data: seq<Scalar>): seq<Byte>
    requires forall i :: 0 <= i < |data| ==> CanStore(data[i])
  {
    if data == [] then [] else ScalarBytes(data[0]) + DataBytes(data[1..])
  }

  function ReadData(kind: Kind, n: nat, s: seq<Byte>): Option<seq<Scalar>> {
    if n == 0 then Some([])
    else
      var first := ReadScalar(kind, s);
      if first.Overflow? then None else InFront([first.value], ReadData(kind, n - 1, first.rest))
  }

  function InFront(data: seq<Scalar>, more: Option<seq<Scalar>>): Option<seq<Scalar>> {
    if more.None? then None else Some(data + more.value)
  }

  /** All values are read back, in front of spare bytes. */
  lemma {:induction false} DataBack(kind: Kind, data: seq<Scalar>, spare: seq<Byte>)
    requires AreData(kind, data) && kind != BOOLEAN
    ensures ReadData(kind, |data|, DataBytes(data) + spare) == Some(data)
    decreases |data|
  {
    hide ScalarBytes, ReadScalar, HasKind, CanStore;
    if data != [] {
      var more := DataBytes(data[1..]) + spare;
      assert DataBytes(data) + spare == ScalarBytes(data[0]) + more;
      ScalarBack(kind, data[0], more);
      DataBack(kind, data[1..], spare);
      assert [data[0]] + data[1..] == data;
    }
  }

  function Flags(data: seq<Scalar>): (fs: seq<nat>)
    ensures |fs| == |data| && forall i :: 0 <= i < |data| ==> fs[i] == if data[i].Bool? && data[i].flag then 1 else 0
  {
    seq(|data|, i requires 0 <= i < |data| => if data[i].Bool? && data[i].flag then 1 else 0)
  }

  function FromFlags(fs: seq<nat>): (data: seq<Scalar>)
    ensures |data| == |fs| && forall i :: 0 <= i < |fs| ==> data[i] == Bool(fs[i] > 0)
  {
    seq(|fs|, i requires 0 <= i < |fs| => Bool(fs[i] > 0))
  }

  lemma {:induction false} FlagsBack(data: seq<Scalar>)
    requires AreData(BOOLEAN, data)
    ensures FromFlags(Flags(data)) == data
  {
  }

  function ColumnData(packer: Packer, kind: Kind, data: seq<Scalar>): seq<Byte>
    requires forall i :: 0 <= i < |data| ==> CanStore(data[i])
  {
    if kind == BOOLEAN then Packed(packer, Bits(1), Stream(1, Flags(data))) else DataBytes(data)
  }

  // ------------------------------------------------------------------
  // Columns
  // ------------------------------------------------------------------

  function Defined(dlvls: seq<nat>, dMax: nat): nat {
    if dlvls == [] then 0 else (if dlvls[0] == dMax then 1 else 0) + Defined(dlvls[1..], dMax)
  }

  /** A stripe of a type: levels in range, and a value for every entry of the largest definition level. */
  ghost predicate IsStripe(kind: Kind, c: C.Stripe) {
    && |c.rlvls| == |c.dlvls|
    && (forall i :: 0 <= i < |c.rlvls| ==> c.rlvls[i] <= c.rMax)
    && (forall i :: 0 <= i < |c.dlvls| ==> c.dlvls[i] <= c.dMax)
    && AreData(kind, c.data) && |c.data| == Defined(c.dlvls, c.dMax)
  }

  /** The parts of a column's body in the file. */
  ghost predicate IsBody(packer: Packer, name: string, kind: Kind, c: C.Stripe, col: Column) {
    && IsText(name) && IsStripe(kind, c)
    && col.name == TextBytes(name) && col.kind == KindCode(kind) && col.rMax == c.rMax && col.dMax == c.dMax
    && col.vals == |c.rlvls|
    && col.rlvls == Packed(packer, Bits(c.rMax), Stream(c.rMax, c.rlvls))
    && col.dlvls == Packed(packer, Bits(c.dMax), Stream(c.dMax, c.dlvls))
    && col.data == ColumnData(packer, kind, c.data) && col.reserved == Reserved(kind)
    && AreBelow(Stream(c.rMax, c.rlvls), Bits(c.rMax)) && AreBelow(Stream(c.dMax, c.dlvls), Bits(c.dMax))
    && (kind == BOOLEAN ==> AreBelow(Stream(1, Flags(c.data)), Bits(1)))
  }

  method EncodeData(data: seq<Scalar>) returns (bytes: seq<Byte>)
    requires forall i :: 0 <= i < |data| ==> CanStore(data[i])
    ensures bytes == DataBytes(data)
  {
    hide ScalarBytes, CanStore;
    bytes := [];
    assert data[0..] == data;
    for i := 0 to |data|
      invariant bytes + DataBytes(data[i..]) == DataBytes(data)
    {
      assert data[i..][1..] == data[i + 1..];
      assert bytes + (ScalarBytes(data[i]) + DataBytes(data[i + 1..])) == bytes + ScalarBytes(data[i]) + DataBytes(data[i + 1..]);
      bytes := bytes + ScalarBytes(data[i]);
    }
    assert bytes + [] == bytes;
  }

  method EncodeColumn(packer: Packer, name: string, kind: Kind, c: C.Stripe) returns (col: Column)
    requires IsText(name) && IsStripe(kind, c)
    ensures IsBody(packer, name, kind, c, col)
  {
    hide Packed, Bits, AreBelow, Stream, CanStore, HasKind, Defined;
    var rlvls := EncodeLevels(packer, c.rMax, c.rlvls);
    var dlvls := EncodeLevels(packer, c.dMax, c.dlvls);
    var data: seq<Byte>;
    if kind == BOOLEAN {
      data := EncodeLevels(packer, 1, Flags(c.data));
    } else {
      data := EncodeData(c.data);
    }
    col := Column(TextBytes(name), KindCode(kind), c.rMax, c.dMax, |c.rlvls|, rlvls, dlvls, data, Reserved(kind));
  }

  method DecodeData(kind: Kind, n: nat, bytes: seq<Byte>) returns (data: Option<seq<Scalar>>)
    ensures data == ReadData(kind, n, bytes)
  {
    hide ReadScalar;
    var read: seq<Scalar> := [];
    var rest := bytes;
    ghost var result := ReadData(kind, n, bytes);
    NothingInFront(result);
    for i := 0 to n
      invariant result == InFront(read, ReadData(kind, n - i, rest))
    {
      var v := ReadScalar(kind, rest);
      if v.Overflow? {
        return None;
      }
      InFrontTwice(read, [v.value], ReadData(kind, n - i - 1, v.rest));
      read := read + [v.value];
      rest := v.rest;
    }
    assert read + [] == read;
    data := Some(read);
  }

  lemma {:induction false} NothingInFront(more: Option<seq<Scalar>>)
    ensures InFront([], more) == more
  {
    if more.Some? {
      assert [] + more.value == more.value;
    }
  }

  lemma {:induction false} InFrontTwice(a: seq<Scalar>, b: seq<Scalar>, more: Option<seq<Scalar>>)
    ensures InFront(a, InFront(b, more)) == InFront(a + b, more)
  {
    if more.Some? {
      assert a + (b + more.value) == a + b + more.value;
    }
  }

  method CountDefined(dlvls: seq<nat>, dMax: nat) returns (n: nat)
    ensures n == Defined(dlvls, dMax)
  {
    n := 0;
    assert dlvls[0..] == dlvls;
    for i := 0 to |dlvls|
      invariant n + Defined(dlvls[i..], dMax) == Defined(dlvls, dMax)
    {
      assert dlvls[i..][1..] == dlvls[i + 1..];
      if dlvls[i] == dMax {
        n := n + 1;
      }
    }
  }

  /** Reading the regions of a body gives the stripe that was written. */
  method DecodeColumn(packer: Packer, info: Info, regions: Regions, ghost name: string, ghost kind: Kind, ghost c: C.Stripe,
                      ghost col: Column, ghost spare: seq<Byte>)
    returns (stripe: C.Stripe)
    requires IsExact(packer) && IsBody(packer, name, kind, c, col) && |spare| == col.reserved
    requires col.rMax < 0x1_0000_0000 && col.dMax < 0x1_0000_0000
    requires info.kind == col.kind && info.rMax == col.rMax && info.dMax == col.dMax
    requires regions == Regions(col.vals, col.rlvls, col.dlvls, col.data + spare)
    ensures stripe == c
  {
    hide Packed, Bits, AreBelow, Stream, CanStore, HasKind, Defined, IsExact, ReadData, DataBytes;
    var rlvls, _ := DecodeLevels(packer, regions.rlvls, info.rMax, c.rlvls, regions.vals);
    var dlvls, _ := DecodeLevels(packer, regions.dlvls, info.dMax, c.dlvls, regions.vals);
    var n := CountDefined(dlvls, info.dMax);
    var data: seq<Scalar>;
    if info.kind == KindCode(BOOLEAN) {
      assert col.data + spare == col.data;
      var flags, _ := DecodeLevels(packer, regions.data, 1, Flags(c.data), n);
      FlagsBack(c.data);
      data := FromFlags(flags);
    } else {
      var read := DecodeData(KindFor(info.kind).value, n, regions.data);
      DataBack(kind, c.data, spare);
      data := read.value;
    }
    stripe := C.Stripe(info.rMax, info.dMax, rlvls, dlvls, data);
  }

  // ------------------------------------------------------------------
  // Tables
  // ------------------------------------------------------------------

  /** A file in which every column of the table has its body, once, in some order. */
  ghost predicate IsFileOf(
    packer: Packer, kinds: map<string, Kind>, table: map<string, C.Stripe>, numRecords: nat, file: seq<Byte>,
    names: seq<string>, cols: seq<Column>, spares: seq<seq<Byte>>)
  {
    && |names| == |cols| == |spares|
    && IsOrderOf(table.Keys, names)
    && (forall i :: 0 <= i < |names| ==>
          names[i] in table && names[i] in kinds
          && IsBody(packer, names[i], kinds[names[i]], table[names[i]], cols[i]) && |spares[i]| == cols[i].reserved)
    && file == File(numRecords, cols, spares)
  }

  ghost predicate IsOrderOf(keys: set<string>, names: seq<string>) {
    && (forall n :: n in names <==> n in keys)
    && (forall i, j :: 0 <= i < j < |names| ==> names[i] != names[j])
  }

  ghost predicate CanWrite(kinds: map<string, Kind>, table: map<string, C.Stripe>) {
    forall n :: n in table ==> n in kinds && IsText(n) && IsStripe(kinds[n], table[n])
  }

  /** `fill` is what the buffers of the bodies held before. */
  method WriteFile(packer: Packer, kinds: map<string, Kind>, table: map<string, C.Stripe>, numRecords: nat,
                   fill: (nat, nat) -> Byte)
    returns (file: seq<Byte>, ghost names: seq<string>, cols: seq<Column>, spares: seq<seq<Byte>>)
    requires CanWrite(kinds, table)
    ensures IsFileOf(packer, kinds, table, numRecords, file, names, cols, spares)
  {
    hide IsStripe, IsBody, Bodies, AllInfoBytes, Infos, FileHeader, IsText;
    var writer := new CSTableWriter(numRecords);
    var todo := table.Keys;
    names, spares := [], [];
    while todo != {}
      invariant todo <= table.Keys && IsOrderOf(table.Keys - todo, names)
      invariant fresh(writer) && writer.offset == 22 && writer.file == FileHeader(numRecords)
      invariant |names| == |writer.columns| == |spares|
      invariant forall i :: 0 <= i < |names| ==>
                  names[i] in table && names[i] in kinds
                  && IsBody(packer, names[i], kinds[names[i]], table[names[i]], writer.columns[i])
                  && |spares[i]| == writer.columns[i].reserved
    {
      var name :| name in todo;
      var col := EncodeColumn(packer, name, kinds[name], table[name]);
      writer.AddColumn(col);
      var place := |spares|;
      spares := spares + [seq(col.reserved, j requires 0 <= j < col.reserved => fill(place, j))];
      OneNameMore(table.Keys, todo, names, name);
      names := names + [name];
      todo := todo - {name};
    }
    assert table.Keys - todo == table.Keys;
    cols := writer.columns;
    writer.Commit(spares);
    file := writer.file;
  }

  lemma {:induction false} OneNameMore(keys: set<string>, todo: set<string>, names: seq<string>, name: string)
    requires IsOrderOf(keys - todo, names) && name in todo && todo <= keys
    ensures IsOrderOf(keys - (todo - {name}), names + [name])
  {
    assert keys - (todo - {name}) == keys - todo + {name};
  }

  /** Columns with different names are all found by their names. */
  lemma {:induction false} AllByName(infos: seq<Info>)
    requires forall i, j :: 0 <= i < j < |infos| ==> infos[i].name != infos[j].name
    ensures forall i :: 0 <= i < |infos| ==> infos[i].name in ByName(infos) && ByName(infos)[infos[i].name] == infos[i]
    ensures forall n :: n in ByName(infos) ==> exists i :: 0 <= i < |infos| && infos[i].name == n
  {
    if infos != [] {
      AllByName(infos[1..]);
      assert forall i :: 0 < i < |infos| ==> infos[i] == infos[1..][i - 1];
      forall n | n in ByName(infos) ensures exists i :: 0 <= i < |infos| && infos[i].name == n {
        if n != infos[0].name {
          var i :| 0 <= i < |infos[1..]| && infos[1..][i].name == n;
          assert infos[i + 1].name == n;
        }
      }
    }
  }

  lemma {:induction false} InfosAreOf(columns: seq<Column>, offset: nat, i: nat)
    requires i < |columns|
    ensures Infos(columns, offset)[i].name == columns[i].name
    decreases columns
  {
    if i > 0 {
      InfosAreOf(columns[1..], offset + columns[0].BodySize(), i - 1);
    }
  }

  /** The file is read back as the table that was written, and the number of records with it. */
  method ReadFile(packer: Packer, file: seq<Byte>, ghost kinds: map<string, Kind>, ghost written: map<string, C.Stripe>,
                  ghost total: nat, ghost names: seq<string>, ghost cols: seq<Column>, ghost spares: seq<seq<Byte>>)
    returns (numRecords: nat, table: map<string, C.Stripe>)
    requires IsExact(packer) && IsFileOf(packer, kinds, written, total, file, names, cols, spares)
    requires AllFit(cols, spares) && total < Limit(8)
    ensures numRecords == total && table == written
  {
    hide IsBody, IsExact, File, Infos, Placed, Parse, ByName, Fits, FirstBody, Limit, Bodies, Loaded, IsText, TextBytes,
         TextOf, IsOrderOf;
    var reader := new CSTableReader();
    FileRoundTrip(total, cols, spares);
    ghost var infos := Infos(cols, FirstBody(cols));
    var ok := reader.Open(file);
    numRecords := reader.numRecords;
    ColumnsByName(packer, kinds, written, names, cols, infos);
    NothingLoaded(names, written, infos);
    var todo := reader.columns.Keys;
    table := map[];
    while todo != {}
      invariant todo <= reader.columns.Keys && reader.columns == ByName(infos)
      invariant Loaded(names, written, todo, table)
    {
      var name :| name in todo;
      var info := reader.columns[name];
      ghost var i :| 0 <= i < |infos| && infos[i].name == name;
      assert info == infos[i];
      var stripe := LoadColumn(packer, file, info, names[i], kinds[names[i]], written[names[i]], cols[i], spares[i]);
      LoadedStep(names, written, todo, table, i);
      table := table[TextOf(name) := stripe];
      todo := todo - {name};
    }
    LoadedAll(names, written, table);
  }

  /** Exactly the columns that are not left are loaded. */
  ghost predicate Loaded(
    names: seq<string>, written: map<string, C.Stripe>, todo: set<seq<Byte>>, table: map<string, C.Stripe>)
  {
    && (forall i :: 0 <= i < |names| ==>
          && names[i] in written && IsText(names[i])
          && if TextBytes(names[i]) in todo then names[i] !in table
             else names[i] in table && table[names[i]] == written[names[i]])
    && (forall n :: n in table ==> n in names)
  }

  lemma {:induction false} NothingLoaded(names: seq<string>, written: map<string, C.Stripe>, infos: seq<Info>)
    requires |infos| == |names| && IsOrderOf(written.Keys, names)
    requires forall i :: 0 <= i < |names| ==>
               IsText(names[i]) && infos[i].name == TextBytes(names[i]) && infos[i].name in ByName(infos)
    ensures Loaded(names, written, ByName(infos).Keys, map[])
  {
    hide ByName, TextBytes, IsText;
  }

  lemma {:induction false} LoadedStep(
    names: seq<string>, written: map<string, C.Stripe>, todo: set<seq<Byte>>, table: map<string, C.Stripe>, i: nat)
    requires Loaded(names, written, todo, table) && IsOrderOf(written.Keys, names)
    requires i < |names| && IsText(names[i]) && TextBytes(names[i]) in todo
    ensures names[i] in written
    ensures var name := TextBytes(names[i]);
            Loaded(names, written, todo - {name}, table[TextOf(name) := written[names[i]]])
  {
    hide TextBytes, TextOf, IsText;
    TextBack(names[i]);
    SameText(names, i);
  }

  lemma {:induction false} LoadedAll(names: seq<string>, written: map<string, C.Stripe>, table: map<string, C.Stripe>)
    requires Loaded(names, written, {}, table) && IsOrderOf(written.Keys, names)
    ensures table == written
  {
    assert forall n :: n in table <==> n in written;
  }

  /** Names are the texts of their bytes, so different names have different bytes. */
  lemma {:induction false} SameText(names: seq<string>, i: nat)
    requires i < |names| && forall j :: 0 <= j < |names| ==> IsText(names[j])
    requires forall j, k :: 0 <= j < k < |names| ==> names[j] != names[k]
    ensures forall j :: 0 <= j < |names| && TextBytes(names[j]) == TextBytes(names[i]) ==> j == i
  {
    TextBack(names[i]);
    forall j | 0 <= j < |names| && TextBytes(names[j]) == TextBytes(names[i]) ensures j == i {
      TextBack(names[j]);
    }
  }

  lemma {:induction false} ColumnsByName(
    packer: Packer, kinds: map<string, Kind>, table: map<string, C.Stripe>, names: seq<string>, cols: seq<Column>,
    infos: seq<Info>)
    requires |names| == |cols| && IsOrderOf(table.Keys, names) && infos == Infos(cols, FirstBody(cols))
    requires forall i :: 0 <= i < |names| ==>
               names[i] in table && names[i] in kinds && IsBody(packer, names[i], kinds[names[i]], table[names[i]], cols[i])
    ensures |infos| == |names|
    ensures forall i :: 0 <= i < |names| ==> IsText(names[i]) && infos[i].name == TextBytes(names[i])
    ensures forall i :: 0 <= i < |infos| ==> infos[i].name in ByName(infos) && ByName(infos)[infos[i].name] == infos[i]
    ensures forall n :: n in ByName(infos) ==> exists i :: 0 <= i < |infos| && infos[i].name == n
  {
    hide Infos, FirstBody, ByName;
    forall i | 0 <= i < |names| ensures IsText(names[i]) && infos[i].name == TextBytes(names[i]) {
      InfosAreOf(cols, FirstBody(cols), i);
    }
    forall i, j | 0 <= i < j < |infos| ensures infos[i].name != infos[j].name {
      SameText(names, i);
    }
    AllByName(infos);
  }

  /** The reader of one column: its body is cut out of the file and opened. */
  method LoadColumn(packer: Packer, file: seq<Byte>, info: Info, ghost name: string, ghost kind: Kind, ghost c: C.Stripe,
                    ghost col: Column, ghost spare: seq<Byte>)
    returns (stripe: C.Stripe)
    requires IsExact(packer) && IsBody(packer, name, kind, c, col) && |spare| == col.reserved
    requires Placed(info, col, spare, file, 0) && Fits(col)
    ensures stripe == c
  {
    hide IsBody, Body, IsExact;
    assert Limit(4) == 0x1_0000_0000;
    var body := file[info.offset..info.offset + info.size];
    BodyRoundTrip(col, spare);
    var regions := OpenBody(body).value;
    stripe := DecodeColumn(packer, info, regions, name, kind, c, col, spare);
  }
}
