/**
  The layout of a table file: a header, a header for every column with the place of its body,
  and the bodies, each with its own header and three regions.
  */
module TableFile {
  import opened Wrappers
  import opened BitPack

  // ------------------------------------------------------------------
  // Numbers, least significant byte first
  // ------------------------------------------------------------------

  function Le(n: nat, width: nat): (s: seq<Byte>)
    ensures |s| == width
    decreases width
  {
    if width == 0 then [] else [n % 256] + Le(n / 256, width - 1)
  }

  function FromLe(s: seq<Byte>): nat {
    if s == [] then 0 else s[0] + 256 * FromLe(s[1..])
  }

  function Limit(width: nat): (p: nat)
    ensures p > 0
  {
    if width == 0 then 1 else 256 * Limit(width - 1)
  }

  lemma {:induction false} LeRoundTrip(n: nat, width: nat)
    requires n < Limit(width)
    ensures FromLe(Le(n, width)) == n
    decreases width
  {
    if width > 0 {
      LeRoundTrip(n / 256, width - 1);
      assert Le(n, width)[1..] == Le(n / 256, width - 1);
    }
  }

  datatype Read<T> = Got(value: T, rest: seq<Byte>) | Overflow

  function ReadInt(s: seq<Byte>, width: nat): Read<nat> {
    if |s| < width then Overflow else Got(FromLe(s[..width]), s[width..])
  }

  function ReadBytes(s: seq<Byte>, n: nat): Read<seq<Byte>> {
    if |s| < n then Overflow else Got(s[..n], s[n..])
  }

  lemma {:induction false} ReadBack(n: nat, width: nat, rest: seq<Byte>)
    requires n < Limit(width)
    ensures ReadInt(Le(n, width) + rest, width) == Got(n, rest)
  {
    LeRoundTrip(n, width);
    var s := Le(n, width) + rest;
    assert s[..width] == Le(n, width) && s[width..] == rest;
  }

  lemma {:induction false} BytesBack(s: seq<Byte>, rest: seq<Byte>)
    ensures ReadBytes(s + rest, |s|) == Got(s, rest)
  {
    assert (s + rest)[..|s|] == s && (s + rest)[|s|..] == rest;
  }

  // ------------------------------------------------------------------
  // Numbers of variable length
  // ------------------------------------------------------------------

  /** Seven bits to a byte, the lowest ones first; the high bit says that more follow. */
  function VarUInt(n: nat): (s: seq<Byte>)
    ensures s != []
  {
    if n < 128 then [n] else [n % 128 + 128] + VarUInt(n / 128)
  }

  function ReadVarUInt(s: seq<Byte>): (r: Read<nat>)
    ensures r.Got? ==> |r.rest| < |s|
  {
    if s == [] then Overflow
    else if s[0] < 128 then Got(s[0], s[1..])
    else
      var more := ReadVarUInt(s[1..]);
      if more.Overflow? then Overflow else Got(s[0] - 128 + 128 * more.value, more.rest)
  }

  lemma {:induction false} VarUIntBack(n: nat, rest: seq<Byte>)
    ensures ReadVarUInt(VarUInt(n) + rest) == Got(n, rest)
  {
    var s := VarUInt(n) + rest;
    if n < 128 {
      assert s[1..] == rest;
    } else {
      VarUIntBack(n / 128, rest);
      assert s[1..] == VarUInt(n / 128) + rest;
    }
  }

  method AppendVarUInt(n: nat) returns (buf: seq<Byte>)
    ensures buf == VarUInt(n)
  {
    buf := [];
    var value := n;
    while true
      invariant buf + VarUInt(value) == VarUInt(n)
      decreases value
    {
      var low := value % 128;
      if value < 128 {
        buf := buf + [low];
        return;
      }
      assert buf + ([low + 128] + VarUInt(value / 128)) == buf + [low + 128] + VarUInt(value / 128);
      buf := buf + [low + 128];
      value := value / 128;
    }
  }

  // ------------------------------------------------------------------
  // Text
  // ------------------------------------------------------------------

  predicate IsText(text: string) {
    forall i :: 0 <= i < |text| ==> text[i] as int < 256
  }

  function TextBytes(text: string): (s: seq<Byte>)
    requires IsText(text)
    ensures |s| == |text|
  {
    seq(|text|, i requires 0 <= i < |text| => text[i] as int)
  }

  function TextOf(s: seq<Byte>): string {
    seq(|s|, i requires 0 <= i < |s| => s[i] as char)
  }

  lemma {:induction false} TextBack(text: string)
    requires IsText(text)
    ensures TextOf(TextBytes(text)) == text
  {
  }

  // ------------------------------------------------------------------
  // Columns
  // ------------------------------------------------------------------

  /** A column after its writer's level streams were flushed. A writer may reserve more bytes
      than its data takes. */
  datatype Column = Column(
    name: seq<Byte>, kind: nat, rMax: nat, dMax: nat,
    vals: nat, rlvls: seq<Byte>, dlvls: seq<Byte>, data: seq<Byte>, reserved: nat)
  {
    function Size(): nat {
      |data| + reserved
    }

    function BodySize(): nat {
      32 + |rlvls| + |dlvls| + Size()
    }
  }

  /** What a body looks like; `spare` is what the buffer held where nothing was written. */
  function Body(c: Column, spare: seq<Byte>): seq<Byte> {
    Le(c.vals, 8) + (Le(|c.rlvls|, 8) + (Le(|c.dlvls|, 8) + (Le(c.Size(), 8) + (c.rlvls + (c.dlvls + (c.data + spare))))))
  }

  lemma {:induction false} BodyLength(c: Column, spare: seq<Byte>)
    requires |spare| == c.reserved
    ensures |Body(c, spare)| == c.BodySize()
  {
  }

  /** The parts of a body as a column reader sets them up. */
  datatype Regions = Regions(vals: nat, rlvls: seq<Byte>, dlvls: seq<Byte>, data: seq<Byte>)

  function OpenBody(body: seq<Byte>): Option<Regions> {
    var vals := ReadInt(body, 8);
    if vals.Overflow? then None
    else
      var rSize := ReadInt(vals.rest, 8);
      if rSize.Overflow? then None
      else
        var dSize := ReadInt(rSize.rest, 8);
        if dSize.Overflow? then None
        else
          var size := ReadInt(dSize.rest, 8);
          if size.Overflow? then None else OpenRegions(vals.value, rSize.value, dSize.value, size.value, size.rest)
  }

  function OpenRegions(vals: nat, rSize: nat, dSize: nat, size: nat, s: seq<Byte>): Option<Regions> {
    var r := ReadBytes(s, rSize);
    if r.Overflow? then None
    else
      var d := ReadBytes(r.rest, dSize);
      if d.Overflow? then None
      else
        var data := ReadBytes(d.rest, size);
        if data.Overflow? then None else Some(Regions(vals, r.value, d.value, data.value))
  }

  predicate Fits(c: Column) {
    && |c.name| < Limit(4) && c.kind < Limit(4) && c.rMax < Limit(4) && c.dMax < Limit(4)
    && c.vals < Limit(8) && c.BodySize() < Limit(8)
  }

  /** A reader finds the level streams of the writer, and data that begins with the writer's. */
  lemma {:induction false} BodyRoundTrip(c: Column, spare: seq<Byte>)
    requires Fits(c) && |spare| == c.reserved
    ensures OpenBody(Body(c, spare)) == Some(Regions(c.vals, c.rlvls, c.dlvls, c.data + spare))
  {
    hide Le, FromLe, Limit, ReadInt, ReadBytes;
    var data := c.data + spare;
    assert |data| == c.Size();
    var regions := c.rlvls + (c.dlvls + data);
    ReadBack(c.vals, 8, Le(|c.rlvls|, 8) + (Le(|c.dlvls|, 8) + (Le(c.Size(), 8) + regions)));
    ReadBack(|c.rlvls|, 8, Le(|c.dlvls|, 8) + (Le(c.Size(), 8) + regions));
    ReadBack(|c.dlvls|, 8, Le(c.Size(), 8) + regions);
    ReadBack(c.Size(), 8, regions);
    BytesBack(c.rlvls, c.dlvls + data);
    BytesBack(c.dlvls, data);
    BytesBack(data, []);
    assert data + [] == data;
  }

  // ------------------------------------------------------------------
  // The file
  // ------------------------------------------------------------------

  datatype Info = Info(name: seq<Byte>, kind: nat, rMax: nat, dMax: nat, offset: nat, size: nat)

  /** The headers of the columns, whose bodies follow each other from an offset on. */
  function Infos(columns: seq<Column>, offset: nat): (infos: seq<Info>)
    ensures |infos| == |columns|
  {
    if columns == [] then []
    else
      var c := columns[0];
      [Info(c.name, c.kind, c.rMax, c.dMax, offset, c.BodySize())] + Infos(columns[1..], offset + c.BodySize())
  }

  function InfoBytes(i: Info): (s: seq<Byte>)
    ensures |s| == 32 + |i.name|
  {
    Le(i.kind, 4) + (Le(|i.name|, 4) + (i.name + (Le(i.rMax, 4) + (Le(i.dMax, 4) + (Le(i.offset, 8) + Le(i.size, 8))))))
  }

  function AllInfoBytes(infos: seq<Info>): seq<Byte> {
    if infos == [] then [] else InfoBytes(infos[0]) + AllInfoBytes(infos[1..])
  }

  function Bodies(columns: seq<Column>, spares: seq<seq<Byte>>): seq<Byte>
    requires |spares| == |columns|
  {
    if columns == [] then [] else Body(columns[0], spares[0]) + Bodies(columns[1..], spares[1..])
  }

  function HeadersSize(columns: seq<Column>): nat {
    if columns == [] then 0 else 32 + |columns[0].name| + HeadersSize(columns[1..])
  }

  const MAGIC := 0x17231723
  const VERSION := 1

  function FileHeader(numRecords: nat): (s: seq<Byte>)
    ensures |s| == 22
  {
    Le(MAGIC, 4) + (Le(VERSION, 2) + (Le(0, 8) + Le(numRecords, 8)))
  }

  /** The headers start behind the number of columns, and the bodies behind the headers. */
  function FirstBody(columns: seq<Column>): nat {
    26 + HeadersSize(columns)
  }

  function File(numRecords: nat, columns: seq<Column>, spares: seq<seq<Byte>>): seq<Byte>
    requires |spares| == |columns|
  {
    FileHeader(numRecords) + Le(|columns|, 4) + AllInfoBytes(Infos(columns, FirstBody(columns))) + Bodies(columns, spares)
  }

  class CSTableWriter {
    var file: seq<Byte>
    var offset: nat
    var columns: seq<Column>

    constructor (numRecords: nat)
      ensures file == FileHeader(numRecords) && offset == 22 && columns == []
    {
      var header := Le(MAGIC, 4) + (Le(VERSION, 2) + (Le(0, 8) + Le(numRecords, 8)));
      file, offset, columns := header, |header|, [];
    }

    method AddColumn(c: Column)
      modifies this`columns
      ensures columns == old(columns) + [c]
    {
      columns := columns + [c];
    }

    /** `spares` are the bytes that the buffers of the bodies held before. */
    method Commit(spares: seq<seq<Byte>>)
      requires |spares| == |columns| && offset == 22
      modifies this`file, this`offset
      ensures file == old(file) + Le(|columns|, 4) + AllInfoBytes(Infos(columns, FirstBody(columns)))
                      + Bodies(columns, spares)
    {
      hide InfoBytes, Body, Le;
      file := file + Le(|columns|, 4);
      offset := offset + 4;
      var colOffset: nat := offset;
      assert columns[0..] == columns;
      for i := 0 to |columns|
        invariant colOffset + HeadersSize(columns[i..]) == offset + HeadersSize(columns)
      {
        assert columns[i..][1..] == columns[i + 1..];
        colOffset := colOffset + 32 + |columns[i].name|;
      }
      var infos := Place(colOffset);
      WriteHeaders(infos);
      WriteBodies(spares);
    }

    method Place(first: nat) returns (infos: seq<Info>)
      ensures infos == Infos(columns, first)
    {
      var colOffset: nat := first;
      infos := [];
      assert columns[0..] == columns;
      for i := 0 to |columns|
        invariant infos + Infos(columns[i..], colOffset) == Infos(columns, first)
      {
        var c := columns[i];
        assert columns[i..][1..] == columns[i + 1..];
        var info := Info(c.name, c.kind, c.rMax, c.dMax, colOffset, c.BodySize());
        ghost var more := Infos(columns[i + 1..], colOffset + c.BodySize());
        assert infos + ([info] + more) == infos + [info] + more;
        infos := infos + [info];
        colOffset := colOffset + c.BodySize();
      }
      assert infos + [] == infos;
    }

    method WriteHeaders(infos: seq<Info>)
      modifies this`file
      ensures file == old(file) + AllInfoBytes(infos)
    {
      hide InfoBytes;
      assert infos[0..] == infos;
      for i := 0 to |infos|
        invariant file + AllInfoBytes(infos[i..]) == old(file) + AllInfoBytes(infos)
      {
        assert infos[i..][1..] == infos[i + 1..];
        assert file + (InfoBytes(infos[i]) + AllInfoBytes(infos[i + 1..]))
            == file + InfoBytes(infos[i]) + AllInfoBytes(infos[i + 1..]);
        file := file + InfoBytes(infos[i]);
      }
      assert file + [] == file;
    }

    method WriteBodies(spares: seq<seq<Byte>>)
      requires |spares| == |columns|
      modifies this`file
      ensures file == old(file) + Bodies(columns, spares)
    {
      hide Body;
      assert columns[0..] == columns && spares[0..] == spares;
      for i := 0 to |columns|
        invariant file + Bodies(columns[i..], spares[i..]) == old(file) + Bodies(columns, spares)
      {
        assert columns[i..][1..] == columns[i + 1..] && spares[i..][1..] == spares[i + 1..];
        var body := Body(columns[i], spares[i]);
        assert file + (body + Bodies(columns[i + 1..], spares[i + 1..])) == file + body + Bodies(columns[i + 1..], spares[i + 1..]);
        file := file + body;
      }
      assert file + [] == file;
    }
  }

  // ------------------------------------------------------------------
  // Reading
  // ------------------------------------------------------------------

  datatype Table = Table(numRecords: nat, columns: seq<Info>) | NoTable | WrongVersion | TooShort

  function ParseInfo(s: seq<Byte>): Read<Info> {
    var kind := ReadInt(s, 4);
    if kind.Overflow? then Overflow
    else
      var length := ReadInt(kind.rest, 4);
      if length.Overflow? then Overflow
      else
        var name := ReadBytes(length.rest, length.value);
        if name.Overflow? then Overflow else ParseLevels(kind.value, name.value, name.rest)
  }

  function ParseLevels(kind: nat, name: seq<Byte>, s: seq<Byte>): Read<Info> {
    var rMax := ReadInt(s, 4);
    if rMax.Overflow? then Overflow
    else
      var dMax := ReadInt(rMax.rest, 4);
      if dMax.Overflow? then Overflow
      else
        var offset := ReadInt(dMax.rest, 8);
        if offset.Overflow? then Overflow
        else
          var size := ReadInt(offset.rest, 8);
          if size.Overflow? then Overflow
          else Got(Info(name, kind, rMax.value, dMax.value, offset.value, size.value), size.rest)
  }

  function ParseInfos(s: seq<Byte>, n: nat): Option<seq<Info>>
    decreases n
  {
    if n == 0 then Some([])
    else
      var first := ParseInfo(s);
      if first.Overflow? then None else WithFirst([first.value], ParseInfos(first.rest, n - 1))
  }

  function WithFirst(infos: seq<Info>, more: Option<seq<Info>>): Option<seq<Info>> {
    if more.None? then None else Some(infos + more.value)
  }

  function Parse(file: seq<Byte>): Table {
    var magic := ReadInt(file, 4);
    if magic.Overflow? then TooShort
    else if magic.value != MAGIC then NoTable
    else
      var version := ReadInt(magic.rest, 2);
      if version.Overflow? then TooShort
      else if version.value != VERSION then WrongVersion
      else
        var flags := ReadInt(version.rest, 8);
        if flags.Overflow? then TooShort
        else
          var records := ReadInt(flags.rest, 8);
          if records.Overflow? then TooShort else ParseColumns(records.value, records.rest)
  }

  function ParseColumns(numRecords: nat, s: seq<Byte>): Table {
    var n := ReadInt(s, 4);
    if n.Overflow? then TooShort
    else
      var infos := ParseInfos(n.rest, n.value);
      if infos.None? then TooShort else Table(numRecords, infos.value)
  }

  /** The columns by name; of several with the same name, the first one. */
  function ByName(infos: seq<Info>): map<seq<Byte>, Info> {
    if infos == [] then map[]
    else ByName(infos[1..])[infos[0].name := infos[0]]
  }

  class CSTableReader {
    var numRecords: nat
    var columns: map<seq<Byte>, Info>

    constructor ()
      ensures columns == map[]
    {
      numRecords, columns := 0, map[];
    }

    /** Reads the headers. */
    method Open(file: seq<Byte>) returns (ok: bool)
      requires columns == map[]
      modifies this
      ensures ok == Parse(file).Table?
      ensures ok ==> numRecords == Parse(file).numRecords && columns == ByName(Parse(file).columns)
    {
      hide ReadInt, ParseInfo, ByName, ParseInfos;
      var magic := ReadInt(file, 4);
      if magic.Overflow? || magic.value != MAGIC {
        return false;
      }
      var version := ReadInt(magic.rest, 2);
      if version.Overflow? || version.value != VERSION {
        return false;
      }
      var flags := ReadInt(version.rest, 8);
      if flags.Overflow? {
        return false;
      }
      var records := ReadInt(flags.rest, 8);
      if records.Overflow? {
        return false;
      }
      numRecords := records.value;
      var n := ReadInt(records.rest, 4);
      if n.Overflow? {
        return false;
      }
      ok := ReadColumns(n.rest, n.value);
    }

    method ReadColumns(s: seq<Byte>, n: nat) returns (ok: bool)
      requires columns == map[]
      modifies this`columns
      ensures ok == ParseInfos(s, n).Some?
      ensures ok ==> columns == ByName(ParseInfos(s, n).value)
    {
      hide ParseInfo;
      var rest := s;
      ghost var infos: seq<Info> := [];
      NothingFirst(ParseInfos(s, n));
      for i := 0 to n
        invariant WithFirst(infos, ParseInfos(rest, n - i)) == ParseInfos(s, n)
        invariant columns == ByName(infos)
      {
        var info := ParseInfo(rest);
        if info.Overflow? {
          return false;
        }
        FirstOneMore(infos, info.value, ParseInfos(info.rest, n - i - 1));
        ByNameOneMore(infos, info.value);
        if info.value.name !in columns {
          columns := columns[info.value.name := info.value];
        }
        infos := infos + [info.value];
        rest := info.rest;
      }
      assert infos + [] == infos;
      ok := true;
    }
  }

  lemma {:induction false} NothingFirst(more: Option<seq<Info>>)
    ensures WithFirst([], more) == more
  {
    if more.Some? {
      assert [] + more.value == more.value;
    }
  }

  lemma {:induction false} FirstOneMore(infos: seq<Info>, info: Info, more: Option<seq<Info>>)
    ensures WithFirst(infos, WithFirst([info], more)) == WithFirst(infos + [info], more)
  {
    if more.Some? {
      assert infos + ([info] + more.value) == infos + [info] + more.value;
    }
  }

  lemma {:induction false} ByNameOneMore(infos: seq<Info>, info: Info)
    ensures ByName(infos + [info])
         == if info.name in ByName(infos) then ByName(infos) else ByName(infos)[info.name := info]
  {
    if infos == [] {
      assert [info][1..] == [] && [] + [info] == [info];
    } else {
      assert (infos + [info])[1..] == infos[1..] + [info];
      ByNameOneMore(infos[1..], info);
    }
  }

  // ------------------------------------------------------------------
  // There and back
  // ------------------------------------------------------------------

  predicate InfoFits(i: Info) {
    && |i.name| < Limit(4) && i.kind < Limit(4) && i.rMax < Limit(4) && i.dMax < Limit(4)
    && i.offset < Limit(8) && i.size < Limit(8)
  }

  lemma {:induction false} InfoRoundTrip(i: Info, rest: seq<Byte>)
    requires InfoFits(i)
    ensures ParseInfo(InfoBytes(i) + rest) == Got(i, rest)
  {
    hide Le, FromLe, Limit, ReadInt, ReadBytes;
    var t4 := Le(i.size, 8) + rest;
    var t3 := Le(i.offset, 8) + t4;
    var t2 := Le(i.dMax, 4) + t3;
    var t1 := Le(i.rMax, 4) + t2;
    var t0 := i.name + t1;
    assert InfoBytes(i) + rest == Le(i.kind, 4) + (Le(|i.name|, 4) + t0);
    ReadBack(i.kind, 4, Le(|i.name|, 4) + t0);
    ReadBack(|i.name|, 4, t0);
    BytesBack(i.name, t1);
    ReadBack(i.rMax, 4, t2);
    ReadBack(i.dMax, 4, t3);
    ReadBack(i.offset, 8, t4);
    ReadBack(i.size, 8, rest);
  }

  lemma {:induction false} InfosRoundTrip(infos: seq<Info>, rest: seq<Byte>)
    requires forall i :: 0 <= i < |infos| ==> InfoFits(infos[i])
    ensures ParseInfos(AllInfoBytes(infos) + rest, |infos|) == Some(infos)
  {
    hide InfoBytes, ParseInfo, InfoFits;
    if infos != [] {
      var more := AllInfoBytes(infos[1..]) + rest;
      assert AllInfoBytes(infos) + rest == InfoBytes(infos[0]) + more;
      InfoRoundTrip(infos[0], more);
      InfosRoundTrip(infos[1..], rest);
      assert [infos[0]] + infos[1..] == infos;
    }
  }

  /** The file with its columns is below the limit of an offset. */
  predicate AllFit(columns: seq<Column>, spares: seq<seq<Byte>>)
    requires |spares| == |columns|
  {
    && |columns| < Limit(4)
    && (forall i :: 0 <= i < |columns| ==> Fits(columns[i]) && |spares[i]| == columns[i].reserved)
    && FirstBody(columns) + |Bodies(columns, spares)| < Limit(8)
  }

  /** Every body starts at its offset, has its size, and ends where the next one starts. */
  lemma {:induction false} BodiesInPlace(columns: seq<Column>, spares: seq<seq<Byte>>, offset: nat, i: nat)
    requires |spares| == |columns| && i < |columns|
    requires forall k :: 0 <= k < |columns| ==> |spares[k]| == columns[k].reserved
    ensures var infos, bodies := Infos(columns, offset), Bodies(columns, spares);
            var at := infos[i].offset - offset;
            && 0 <= at && at + infos[i].size <= |bodies|
            && bodies[at..at + infos[i].size] == Body(columns[i], spares[i])
            && infos[i] == Info(columns[i].name, columns[i].kind, columns[i].rMax, columns[i].dMax,
                                offset + at, columns[i].BodySize())
            && (if i + 1 < |columns| then infos[i + 1].offset == infos[i].offset + infos[i].size
                else at + infos[i].size == |bodies|)
    decreases |columns|
  {
    hide Body, Column.BodySize;
    var c := columns[0];
    var first, rest := Body(c, spares[0]), Bodies(columns[1..], spares[1..]);
    BodyLength(c, spares[0]);
    if i == 0 {
      assert (first + rest)[..|first|] == first;
      if |columns| == 1 {
        assert rest == [];
      }
    } else {
      BodiesInPlace(columns[1..], spares[1..], offset + c.BodySize(), i - 1);
      var at := Infos(columns, offset)[i].offset - offset;
      assert (first + rest)[at..at + columns[i].BodySize()]
          == rest[at - |first|..at - |first| + columns[i].BodySize()];
    }
  }

  lemma {:induction false} HeadersLength(columns: seq<Column>, offset: nat)
    ensures |AllInfoBytes(Infos(columns, offset))| == HeadersSize(columns)
    decreases columns
  {
    hide InfoBytes;
    if columns != [] {
      HeadersLength(columns[1..], offset + columns[0].BodySize());
      assert Infos(columns, offset)[1..] == Infos(columns[1..], offset + columns[0].BodySize());
    }
  }

  ghost predicate Placed(info: Info, c: Column, spare: seq<Byte>, s: seq<Byte>, offset: nat) {
    var at := info.offset - offset;
    && 0 <= at && at + info.size <= |s| && s[at..at + info.size] == Body(c, spare)
    && info.name == c.name && info.kind == c.kind && info.rMax == c.rMax && info.dMax == c.dMax
  }

  lemma {:induction false} PlacedBehind(info: Info, c: Column, spare: seq<Byte>, front: seq<Byte>, s: seq<Byte>)
    requires Placed(info, c, spare, s, |front|)
    ensures Placed(info, c, spare, front + s, 0)
  {
    hide Body;
    var at := info.offset - |front|;
    assert (front + s)[info.offset..info.offset + info.size] == s[at..at + info.size];
  }

  lemma {:induction false} InfosFit(columns: seq<Column>, spares: seq<seq<Byte>>, i: nat)
    requires |spares| == |columns| && AllFit(columns, spares) && i < |columns|
    ensures var infos := Infos(columns, FirstBody(columns));
            InfoFits(infos[i]) && Placed(infos[i], columns[i], spares[i], Bodies(columns, spares), FirstBody(columns))
  {
    hide Body, Bodies, Infos, Limit, HeadersSize, FirstBody;
    BodiesInPlace(columns, spares, FirstBody(columns), i);
    assert Fits(columns[i]);
  }

  /** Parsing a written file gives the columns with their names, types, levels, sizes and places;
      the body of each column is found at its place. */
  lemma {:induction false} FileRoundTrip(numRecords: nat, columns: seq<Column>, spares: seq<seq<Byte>>)
    requires |spares| == |columns| && AllFit(columns, spares) && numRecords < Limit(8)
    ensures var infos, file := Infos(columns, FirstBody(columns)), File(numRecords, columns, spares);
            && Parse(file) == Table(numRecords, infos)
            && forall i :: 0 <= i < |columns| ==> Placed(infos[i], columns[i], spares[i], file, 0)
  {
    hide Body, Bodies, AllInfoBytes, Infos, Limit, Le, HeadersSize, ParseInfos, Parse, Placed, InfoFits, Fits, FileHeader;
    var infos, bodies := Infos(columns, FirstBody(columns)), Bodies(columns, spares);
    var headers := AllInfoBytes(infos);
    HeadersLength(columns, FirstBody(columns));
    var front := FileHeader(numRecords) + Le(|columns|, 4) + headers;
    assert |front| == FirstBody(columns);
    forall i | 0 <= i < |columns|
      ensures InfoFits(infos[i])
      ensures Placed(infos[i], columns[i], spares[i], front + bodies, 0)
    {
      InfosFit(columns, spares, i);
      PlacedBehind(infos[i], columns[i], spares[i], front, bodies);
    }
    ParseFront(numRecords, |columns|, headers + bodies);
    FourParts(FileHeader(numRecords), Le(|columns|, 4), headers, bodies);
    InfosRoundTrip(infos, bodies);
  }

  lemma {:induction false} FourParts<T>(a: seq<T>, b: seq<T>, c: seq<T>, d: seq<T>)
    ensures a + b + c + d == a + (b + (c + d))
  {
  }

  lemma {:induction false} ParseFront(numRecords: nat, n: nat, rest: seq<Byte>)
    requires numRecords < Limit(8) && n < Limit(4)
    ensures Parse(FileHeader(numRecords) + (Le(n, 4) + rest))
         == (var infos := ParseInfos(rest, n); if infos.None? then TooShort else Table(numRecords, infos.value))
  {
    hide Le, FromLe, ReadInt, ParseInfos, Limit;
    Limits();
    var t := Le(n, 4) + rest;
    var t3 := Le(numRecords, 8) + t;
    var t2 := Le(0, 8) + t3;
    var t1 := Le(VERSION, 2) + t2;
    assert FileHeader(numRecords) + t == Le(MAGIC, 4) + t1;
    ReadBack(MAGIC, 4, t1);
    ReadBack(VERSION, 2, t2);
    ReadBack(0, 8, t3);
    ReadBack(numRecords, 8, t);
    ReadBack(n, 4, rest);
  }

  lemma {:induction false} Limits()
    ensures MAGIC < Limit(4) && VERSION < Limit(2) && 0 < Limit(8)
  {
    assert Limit(1) == 256;
    assert Limit(2) == 256 * 256;
    assert Limit(3) == 256 * 256 * 256;
  }
}
