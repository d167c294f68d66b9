/**
  The state of a grouping as bytes: what a shard sends back, and what is kept in the cache.
  */
module GroupCodec {
  import opened Wrappers
  import opened Aggregates
  import opened BitPack
  import opened TableFile
  import opened GroupBy

  /** How a floating point number is stored. Only some numbers are floating point numbers. */
  datatype Doubles = Doubles(isDouble: real -> bool, toBytes: real -> seq<Byte>, fromBytes: seq<Byte> -> real)

  ghost predicate IsExactFor(f: Doubles) {
    forall x: real :: f.isDouble(x) ==> |f.toBytes(x)| == 8 && f.fromBytes(f.toBytes(x)) == x
  }

  // ------------------------------------------------------------------
  // Keys
  // ------------------------------------------------------------------

  function LenencString(key: string): seq<Byte>
    requires IsText(key)
  {
    VarUInt(|key|) + TextBytes(key)
  }

  function ReadLenencString(s: seq<Byte>): (r: Read<string>)
    ensures r.Got? ==> |r.rest| < |s|
  {
    var length := ReadVarUInt(s);
    if length.Overflow? then Overflow
    else
      var key := ReadBytes(length.rest, length.value);
      if key.Overflow? then Overflow else Got(TextOf(key.value), key.rest)
  }

  lemma {:induction false} KeyRoundTrip(key: string, rest: seq<Byte>)
    requires IsText(key)
    ensures ReadLenencString(LenencString(key) + rest) == Got(key, rest)
  {
    var bytes := TextBytes(key);
    assert LenencString(key) + rest == VarUInt(|key|) + (bytes + rest);
    VarUIntBack(|key|, bytes + rest);
    BytesBack(bytes, rest);
    TextBack(key);
  }

  // ------------------------------------------------------------------
  // Scratchpads
  // ------------------------------------------------------------------

  function TagCode(t: Tag): nat {
    match t
    case NullTag => 0
    case FloatTag => 2
    case IntegerTag => 3
  }

  /** Other codes are treated like that of NULL wherever a sum is used. */
  function TagOf(code: nat): Tag {
    if code == 2 then FloatTag else if code == 3 then IntegerTag else NullTag
  }

  function SaveState(f: Doubles, p: Pad): seq<Byte> {
    match p
    case CountPad(n) => VarUInt(n)
    case SumPad(tag, val) => VarUInt(TagCode(tag)) + f.toBytes(val)
  }

  function LoadState(f: Doubles, c: Call, s: seq<Byte>): Read<Pad> {
    var first := ReadVarUInt(s);
    if first.Overflow? then Overflow
    else if c == COUNT then Got(CountPad(first.value), first.rest)
    else
      var val := ReadBytes(first.rest, 8);
      if val.Overflow? then Overflow else Got(SumPad(TagOf(first.value), f.fromBytes(val.value)), val.rest)
  }

  predicate CanSave(f: Doubles, c: Call, p: Pad) {
    PadOf(c, p) && (p.SumPad? ==> f.isDouble(p.val))
  }

  lemma {:induction false} StateRoundTrip(f: Doubles, c: Call, p: Pad, rest: seq<Byte>)
    requires IsExactFor(f) && CanSave(f, c, p)
    ensures LoadState(f, c, SaveState(f, p) + rest) == Got(p, rest)
  {
    match p
    case CountPad(n) => VarUIntBack(n, rest);
    case SumPad(tag, val) =>
      var bytes := f.toBytes(val);
      assert SaveState(f, p) + rest == VarUInt(TagCode(tag)) + (bytes + rest);
      VarUIntBack(TagCode(tag), bytes + rest);
      BytesBack(bytes, rest);
  }

  function SaveAll(f: Doubles, pads: seq<Pad>): seq<Byte> {
    if pads == [] then [] else SaveState(f, pads[0]) + SaveAll(f, pads[1..])
  }

  function LoadAll(f: Doubles, selects: seq<Select>, s: seq<Byte>): Read<seq<Pad>>
    decreases |selects|
  {
    if selects == [] then Got([], s)
    else
      var first := LoadState(f, selects[0].call, s);
      if first.Overflow? then Overflow
      else
        var more := LoadAll(f, selects[1..], first.rest);
        if more.Overflow? then Overflow else Got([first.value] + more.value, more.rest)
  }

  ghost predicate CanSaveAll(f: Doubles, selects: seq<Select>, pads: seq<Pad>) {
    |pads| == |selects| && forall j :: 0 <= j < |pads| ==> CanSave(f, selects[j].call, pads[j])
  }

  lemma {:induction false} PadsRoundTrip(f: Doubles, selects: seq<Select>, pads: seq<Pad>, rest: seq<Byte>)
    requires IsExactFor(f) && CanSaveAll(f, selects, pads)
    ensures LoadAll(f, selects, SaveAll(f, pads) + rest) == Got(pads, rest)
    decreases |selects|
  {
    hide SaveState, LoadState, IsExactFor, CanSave;
    if selects == [] {
      assert SaveAll(f, pads) + rest == rest;
    } else {
      var more := SaveAll(f, pads[1..]) + rest;
      assert SaveAll(f, pads) + rest == SaveState(f, pads[0]) + more;
      StateRoundTrip(f, selects[0].call, pads[0], more);
      PadsRoundTrip(f, selects[1..], pads[1..], rest);
      assert [pads[0]] + pads[1..] == pads;
    }
  }

  // ------------------------------------------------------------------
  // Groups
  // ------------------------------------------------------------------

  ghost predicate CanEncode(f: Doubles, selects: seq<Select>, g: Groups) {
    forall k :: k in g ==> IsText(k) && CanSaveAll(f, selects, g[k])
  }

  /** The groups one after the other, in some order. */
  function GroupsBytes(f: Doubles, g: Groups, order: seq<string>): seq<Byte>
    requires forall i :: 0 <= i < |order| ==> order[i] in g && IsText(order[i])
  {
    if order == [] then []
    else LenencString(order[0]) + SaveAll(f, g[order[0]]) + GroupsBytes(f, g, order[1..])
  }

  /** The groups of any number of aggregates. */
  function EncodedFor(f: Doubles, exprs: nat, g: Groups, order: seq<string>): seq<Byte>
    requires forall i :: 0 <= i < |order| ==> order[i] in g && IsText(order[i])
  {
    VarUInt(|g|) + (VarUInt(exprs) + GroupsBytes(f, g, order))
  }

  function Encoded(f: Doubles, selects: seq<Select>, g: Groups, order: seq<string>): seq<Byte>
    requires forall i :: 0 <= i < |order| ==> order[i] in g && IsText(order[i])
  {
    EncodedFor(f, |selects|, g, order)
  }

  /** An order in which a map can be visited. */
  ghost predicate IsOrder(g: Groups, order: seq<string>) {
    && (forall i :: 0 <= i < |order| ==> order[i] in g)
    && (forall k :: k in g ==> k in order)
    && (forall i, j :: 0 <= i < j < |order| ==> order[i] != order[j])
  }

  /** A group that is already there grows by fresh states, but the states that were read go into
      its first places. */
  function Reloaded(was: seq<Pad>, pads: seq<Pad>, selects: seq<Select>): seq<Pad>
    requires |pads| == |selects|
  {
    pads + (was + Inits(selects))[|pads|..]
  }

  datatype Decoding = Decoded(groups: Groups) | OtherSelects | Truncated

  lemma {:induction false} LoadsAll(f: Doubles, selects: seq<Select>, s: seq<Byte>)
    ensures var r := LoadAll(f, selects, s); r.Got? ==> |r.value| == |selects|
    decreases |selects|
  {
    if selects != [] {
      var first := LoadState(f, selects[0].call, s);
      if first.Got? {
        LoadsAll(f, selects[1..], first.rest);
      }
    }
  }

  function DecodeGroups(f: Doubles, selects: seq<Select>, g: Groups, n: nat, s: seq<Byte>): Decoding
    decreases n
  {
    if n == 0 then Decoded(g)
    else
      var key := ReadLenencString(s);
      if key.Overflow? then Truncated
      else
        var pads := LoadAll(f, selects, key.rest);
        if pads.Overflow? then Truncated
        else
          LoadsAll(f, selects, key.rest);
          var was := if key.value in g then g[key.value] else [];
          DecodeGroups(f, selects, g[key.value := Reloaded(was, pads.value, selects)], n - 1, pads.rest)
  }

  /** Decoding into groups that are already there. */
  function Decode(f: Doubles, selects: seq<Select>, g: Groups, s: seq<Byte>): Decoding {
    var n := ReadVarUInt(s);
    if n.Overflow? then Truncated
    else
      var exprs := ReadVarUInt(n.rest);
      if exprs.Overflow? then Truncated
      else if exprs.value != |selects| then OtherSelects
      else DecodeGroups(f, selects, g, n.value, exprs.rest)
  }

  /** The groups of the first keys of an order. */
  ghost function Part(g: Groups, order: seq<string>, n: nat): Groups
    requires n <= |order|
  {
    map k | k in order[..n] && k in g :: g[k]
  }

  lemma {:induction false} GroupsRoundTrip(
    f: Doubles, selects: seq<Select>, g: Groups, order: seq<string>, n: nat, rest: seq<Byte>)
    requires IsExactFor(f) && CanEncode(f, selects, g) && IsOrder(g, order) && n <= |order|
    ensures DecodeGroups(f, selects, Part(g, order, n), |order| - n, GroupsBytes(f, g, order[n..]) + rest)
         == Decoded(Part(g, order, |order|))
    decreases |order| - n
  {
    hide LenencString, SaveAll, LoadAll, ReadLenencString, IsExactFor, CanSaveAll;
    if n < |order| {
      var key := order[n];
      var pads := g[key];
      var more := GroupsBytes(f, g, order[n + 1..]) + rest;
      assert order[n..][1..] == order[n + 1..];
      KeyText(LenencString(key), SaveAll(f, pads), GroupsBytes(f, g, order[n + 1..]), rest);
      KeyRoundTrip(key, SaveAll(f, pads) + more);
      PadsRoundTrip(f, selects, pads, more);
      assert key !in order[..n];
      NewGroup(f, selects, pads);
      PartOneMore(g, order, n);
      GroupsRoundTrip(f, selects, g, order, n + 1, rest);
    }
  }

  lemma {:induction false} KeyText(a: seq<Byte>, b: seq<Byte>, c: seq<Byte>, d: seq<Byte>)
    ensures a + b + c + d == a + (b + (c + d))
  {
  }

  lemma {:induction false} NewGroup(f: Doubles, selects: seq<Select>, pads: seq<Pad>)
    requires CanSaveAll(f, selects, pads)
    ensures Reloaded([], pads, selects) == pads
  {
    assert ([] + Inits(selects))[|pads|..] == [];
  }

  lemma {:induction false} PartOneMore(g: Groups, order: seq<string>, n: nat)
    requires n < |order| && order[n] in g
    ensures Part(g, order, n)[order[n] := g[order[n]]] == Part(g, order, n + 1)
  {
    assert order[..n + 1] == order[..n] + [order[n]];
  }

  lemma {:induction false} WholeOrder(g: Groups, order: seq<string>)
    requires IsOrder(g, order)
    ensures Part(g, order, |order|) == g && Part(g, order, 0) == map[] && |order| == |g|
  {
    assert order[..|order|] == order;
    KeysCounted(g.Keys, order);
  }

  lemma {:induction false} KeysCounted(keys: set<string>, order: seq<string>)
    requires forall k :: k in order <==> k in keys
    requires forall i, j :: 0 <= i < j < |order| ==> order[i] != order[j]
    ensures |order| == |keys|
    decreases |order|
  {
    if order == [] {
      assert keys == {};
    } else {
      var last, rest := order[|order| - 1], order[..|order| - 1];
      assert order == rest + [last];
      forall k ensures k in rest <==> k in keys - {last} {
        assert k in order <==> k in rest || k == last;
      }
      KeysCounted(keys - {last}, rest);
    }
  }

  /** Decoding what was encoded gives the same keys and states, for every order of writing. */
  lemma {:induction false} DecodeEncode(f: Doubles, selects: seq<Select>, g: Groups, order: seq<string>)
    requires IsExactFor(f) && CanEncode(f, selects, g) && IsOrder(g, order)
    ensures Decode(f, selects, map[], Encoded(f, selects, g, order)) == Decoded(g)
  {
    hide GroupsBytes, DecodeGroups, IsExactFor, CanEncode;
    assert forall i :: 0 <= i < |order| ==> order[i] in g;
    EncodedOrder(f, selects, g, order);
    WholeOrder(g, order);
    var body := GroupsBytes(f, g, order);
    VarUIntBack(|g|, VarUInt(|selects|) + body);
    VarUIntBack(|selects|, body);
    GroupsRoundTrip(f, selects, g, order, 0, []);
    assert order[0..] == order && body + [] == body;
  }

  lemma {:induction false} EncodedOrder(f: Doubles, selects: seq<Select>, g: Groups, order: seq<string>)
    requires CanEncode(f, selects, g) && IsOrder(g, order)
    ensures forall i :: 0 <= i < |order| ==> order[i] in g && IsText(order[i])
  {
    hide CanSaveAll;
  }

  /** With another number of aggregates, decoding says so and reads no group. */
  lemma {:induction false} OtherSelectsRefused(
    f: Doubles, exprs: nat, others: seq<Select>, g: Groups, order: seq<string>, into: Groups)
    requires forall i :: 0 <= i < |order| ==> order[i] in g && IsText(order[i])
    requires |others| != exprs
    ensures Decode(f, others, into, EncodedFor(f, exprs, g, order)) == OtherSelects
  {
    var body := GroupsBytes(f, g, order);
    VarUIntBack(|g|, VarUInt(exprs) + body);
    VarUIntBack(exprs, body);
  }

  /** Bytes kept for a shard: some grouping was written, and if it had as many aggregates as there
      are now, then it was the grouping of the shard's rows. */
  ghost predicate KeptFor(f: Doubles, selects: seq<Select>, keyOf: Row -> string, rows: seq<Row>, kept: seq<Byte>) {
    exists exprs: nat, g: Groups, order: seq<string> ::
      && KeptAs(f, exprs, g, order, kept)
      && (exprs == |selects| ==> Groups?(g, rows, keyOf, selects) && CanEncode(f, selects, g))
  }

  ghost predicate KeptAs(f: Doubles, exprs: nat, g: Groups, order: seq<string>, kept: seq<Byte>) {
    && IsOrder(g, order) && (forall i :: 0 <= i < |order| ==> IsText(order[i]))
    && kept == EncodedFor(f, exprs, g, order)
  }

  /** What was kept is either refused or gives the grouping of the rows. */
  lemma {:induction false} KeptIsRead(
    f: Doubles, selects: seq<Select>, keyOf: Row -> string, rows: seq<Row>, kept: seq<Byte>)
    requires IsExactFor(f) && KeptFor(f, selects, keyOf, rows, kept)
    ensures match Decode(f, selects, map[], kept)
            case Decoded(g) => Groups?(g, rows, keyOf, selects)
            case OtherSelects => true
            case Truncated => false
  {
    hide Groups?, IsExactFor, Decode, GroupsBytes;
    var exprs: nat, g: Groups, order: seq<string> :|
      && KeptAs(f, exprs, g, order, kept)
      && (exprs == |selects| ==> Groups?(g, rows, keyOf, selects) && CanEncode(f, selects, g));
    if exprs == |selects| {
      DecodeEncode(f, selects, g, order);
    } else {
      OtherSelectsRefused(f, exprs, selects, g, order, map[]);
    }
  }

  lemma {:induction false} EncodedIsKept(f: Doubles, selects: seq<Select>, g: Groups, order: seq<string>)
    requires IsOrder(g, order) && forall i :: 0 <= i < |order| ==> order[i] in g && IsText(order[i])
    ensures KeptAs(f, |selects|, g, order, Encoded(f, selects, g, order))
  {
    hide GroupsBytes;
  }

  // ------------------------------------------------------------------
  // Reading and writing
  // ------------------------------------------------------------------

  class Codec {
    const doubles: Doubles
    const selects: seq<Select>
    var groups: Groups

    constructor (doubles: Doubles, selects: seq<Select>)
      ensures this.doubles == doubles && this.selects == selects && groups == map[]
    {
      this.doubles, this.selects, groups := doubles, selects, map[];
    }

    /** Writes the groups in whatever order the map is visited. */
    method Encode() returns (os: seq<Byte>, ghost order: seq<string>)
      requires CanEncode(doubles, selects, groups)
      ensures IsOrder(groups, order) && forall i :: 0 <= i < |order| ==> order[i] in groups && IsText(order[i])
      ensures os == Encoded(doubles, selects, groups, order)
    {
      hide CanSaveAll, LenencString, SaveAll, VarUInt;
      var count := AppendVarUInt(|groups|);
      var exprs := AppendVarUInt(|selects|);
      var body: seq<Byte> := [];
      var todo := groups.Keys;
      order := [];
      while todo != {}
        invariant todo <= groups.Keys
        invariant forall i :: 0 <= i < |order| ==> order[i] in groups && IsText(order[i]) && order[i] !in todo
        invariant forall k :: k in groups ==> k in todo || k in order
        invariant forall i, j :: 0 <= i < j < |order| ==> order[i] != order[j]
        invariant body == GroupsBytes(doubles, groups, order)
      {
        var key :| key in todo;
        GroupsOneMore(doubles, groups, order, key);
        body := body + (LenencString(key) + SaveAll(doubles, groups[key]));
        order := order + [key];
        todo := todo - {key};
      }
      os := count + (exprs + body);
    }

    /** False if the bytes were written for another number of aggregates; the groups are then as
        before. None stands for an exception. */
    method DecodeFrom(input: seq<Byte>) returns (same: Option<bool>)
      modifies this`groups
      ensures match Decode(doubles, selects, old(groups), input)
              case Decoded(g) => same == Some(true) && groups == g
              case OtherSelects => same == Some(false) && groups == old(groups)
              case Truncated => same == None
    {
      hide LoadAll, ReadLenencString, Reloaded;
      var n := ReadVarUInt(input);
      if n.Overflow? {
        return None;
      }
      var exprs := ReadVarUInt(n.rest);
      if exprs.Overflow? {
        return None;
      }
      if exprs.value != |selects| {
        return Some(false);
      }
      var rest := exprs.rest;
      ghost var result := DecodeGroups(doubles, selects, groups, n.value, rest);
      for i := 0 to n.value
        invariant result == DecodeGroups(doubles, selects, groups, n.value - i, rest)
      {
        var key := ReadLenencString(rest);
        if key.Overflow? {
          return None;
        }
        var pads := LoadAll(doubles, selects, key.rest);
        if pads.Overflow? {
          return None;
        }
        LoadsAll(doubles, selects, key.rest);
        var was := if key.value in groups then groups[key.value] else [];
        groups := groups[key.value := Reloaded(was, pads.value, selects)];
        rest := pads.rest;
      }
      same := Some(true);
    }
  }

  lemma {:induction false} GroupsOneMore(f: Doubles, g: Groups, order: seq<string>, key: string)
    requires forall i :: 0 <= i < |order| ==> order[i] in g && IsText(order[i])
    requires key in g && IsText(key)
    ensures forall i :: 0 <= i < |order + [key]| ==> (order + [key])[i] in g && IsText((order + [key])[i])
    ensures GroupsBytes(f, g, order + [key]) == GroupsBytes(f, g, order) + (LenencString(key) + SaveAll(f, g[key]))
    decreases |order|
  {
    hide LenencString, SaveAll, IsText;
    var more := LenencString(key) + SaveAll(f, g[key]);
    if order == [] {
      assert [] + [key] == [key] && [key][1..] == [];
      assert more + [] == [] + more;
    } else {
      assert (order + [key])[1..] == order[1..] + [key];
      GroupsOneMore(f, g, order[1..], key);
      var first := LenencString(order[0]) + SaveAll(f, g[order[0]]);
      assert first + (GroupsBytes(f, g, order[1..]) + more) == first + GroupsBytes(f, g, order[1..]) + more;
    }
  }

  /** A grouping through the cache is the grouping of the rows, whatever the cache held before, and
      what it holds afterwards is good for the next time. */
  method AccumulateCached(
    doubles: Doubles, selects: seq<Select>, keyOf: Row -> string, rows: seq<Row>, cache: Option<seq<Byte>>)
    returns (groups: Groups, kept: seq<Byte>)
    requires IsExactFor(doubles)
    requires forall g :: Groups?(g, rows, keyOf, selects) ==> CanEncode(doubles, selects, g)
    requires cache.Some? ==> KeptFor(doubles, selects, keyOf, rows, cache.value)
    ensures Groups?(groups, rows, keyOf, selects)
    ensures KeptFor(doubles, selects, keyOf, rows, kept)
  {
    hide Groups?, CanEncode, IsExactFor, KeptAs;
    var codec := new Codec(doubles, selects);
    var fromCache := Some(false);
    if cache.Some? {
      KeptIsRead(doubles, selects, keyOf, rows, cache.value);
      fromCache := codec.DecodeFrom(cache.value);
      kept := cache.value;
    }
    if fromCache == Some(false) {
      var expression := new GroupByExpression(selects, keyOf);
      expression.AccumulateRows(rows);
      codec.groups := expression.groups;
      ghost var order;
      kept, order := codec.Encode();
      EncodedIsKept(doubles, selects, codec.groups, order);
    }
    groups := codec.groups;
  }
}
