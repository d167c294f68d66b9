/**
  SQL values and the COUNT and SUM scratchpads of `expressions/aggregate.cc`. Sums are taken
  over the reals, so rounding is not part of the model.
  */
module Aggregates {
  import opened Wrappers

  datatype SValue = Null | Integer(i: int) | Float(f: real) | Text(s: string) | Boolean(b: bool)

  datatype Call = COUNT | SUM

  datatype Tag = NullTag | IntegerTag | FloatTag

  datatype Pad = CountPad(n: nat) | SumPad(tag: Tag, val: real)

  predicate PadOf(c: Call, p: Pad) {
    if c == COUNT then p.CountPad? else p.SumPad?
  }

  function Init(c: Call): Pad {
    if c == COUNT then CountPad(0) else SumPad(NullTag, 0.0)
  }

  /** The tag is that of the last value added, whatever came before. */
  function Accumulate(p: Pad, v: SValue): Pad {
    match p
    case CountPad(n) => if v.Null? then p else CountPad(n + 1)
    case SumPad(_, val) =>
      match v
      case Integer(i) => SumPad(IntegerTag, val + i as real)
      case Float(f) => SumPad(FloatTag, val + f)
      case _ => p
  }

  function Merge(dst: Pad, src: Pad): Pad {
    if dst.CountPad? && src.CountPad? then CountPad(dst.n + src.n)
    else if dst.SumPad? && src.SumPad? then
      SumPad(if dst.tag == IntegerTag && src.tag == IntegerTag then IntegerTag else FloatTag, dst.val + src.val)
    else dst
  }

  /** Conversion of a double to an integer truncates towards zero. */
  function Truncate(x: real): int {
    if x >= 0.0 then x.Floor else -((-x).Floor)
  }

  function Get(p: Pad): SValue {
    match p
    case CountPad(n) => Integer(n)
    case SumPad(IntegerTag, val) => Integer(Truncate(val))
    case SumPad(FloatTag, val) => Float(val)
    case SumPad(NullTag, _) => Null
  }

  function Fold(p: Pad, vs: seq<SValue>): Pad {
    if vs == [] then p else Accumulate(Fold(p, vs[..|vs| - 1]), vs[|vs| - 1])
  }

  // ------------------------------------------------------------------
  // What the scratchpads mean
  // ------------------------------------------------------------------

  /** The number of values that are not NULL. */
  function CountOf(vs: seq<SValue>): nat {
    if vs == [] then 0 else (if vs[0].Null? then 0 else 1) + CountOf(vs[1..])
  }

  function AsReal(v: SValue): real {
    match v
    case Integer(i) => i as real
    case Float(f) => f
    case _ => 0.0
  }

  function SumOf(vs: seq<SValue>): real {
    if vs == [] then 0.0 else AsReal(vs[0]) + SumOf(vs[1..])
  }

  lemma {:induction false} CountConcat(a: seq<SValue>, b: seq<SValue>)
    ensures CountOf(a + b) == CountOf(a) + CountOf(b)
    ensures SumOf(a + b) == SumOf(a) + SumOf(b)
  {
    if a == [] {
      assert a + b == b;
    } else {
      assert (a + b)[1..] == a[1..] + b;
      CountConcat(a[1..], b);
    }
  }

  /** Folding COUNT counts the values that are not NULL, folding SUM adds them. */
  lemma {:induction false} FoldMeans(p: Pad, vs: seq<SValue>)
    ensures p.CountPad? ==> Fold(p, vs) == CountPad(p.n + CountOf(vs))
    ensures p.SumPad? ==> Fold(p, vs).SumPad? && Fold(p, vs).val == p.val + SumOf(vs)
  {
    if vs != [] {
      var n := |vs| - 1;
      FoldMeans(p, vs[..n]);
      assert vs == vs[..n] + [vs[n]];
      CountConcat(vs[..n], [vs[n]]);
      assert [vs[n]][1..] == [];
    }
  }

  /** The last of the values that is a number; SUM takes its type. */
  function LastNumber(vs: seq<SValue>): (v: Option<SValue>)
    ensures v.Some? ==> v.value.Integer? || v.value.Float?
  {
    if vs == [] then None
    else
      var more := LastNumber(vs[1..]);
      if more.Some? then more else if vs[0].Integer? || vs[0].Float? then Some(vs[0]) else None
  }

  /** What SUM hands out: NULL where there is no number, otherwise the sum, as an integer if the last
      number was one. */
  function SumResult(vs: seq<SValue>): SValue {
    match LastNumber(vs)
    case None => Null
    case Some(Float(_)) => Float(SumOf(vs))
    case Some(_) => Integer(Truncate(SumOf(vs)))
  }

  /** Truncated is what is left of a number without its fraction. */
  lemma {:induction false} TruncateDropsFraction(x: real)
    ensures var n := Truncate(x);
            if x >= 0.0 then n as real <= x < n as real + 1.0 else n as real - 1.0 < x <= n as real
  {
  }

  lemma {:induction false} LastNumberConcat(a: seq<SValue>, b: seq<SValue>)
    ensures LastNumber(a + b) == if LastNumber(b).Some? then LastNumber(b) else LastNumber(a)
  {
    if a == [] {
      assert a + b == b;
    } else {
      assert (a + b)[1..] == a[1..] + b;
      LastNumberConcat(a[1..], b);
    }
  }

  lemma {:induction false} TagOfLast(vs: seq<SValue>)
    ensures Fold(Init(SUM), vs).SumPad?
    ensures Fold(Init(SUM), vs).tag
         == match LastNumber(vs) case None => NullTag case Some(Float(_)) => FloatTag case Some(_) => IntegerTag
  {
    if vs != [] {
      var n := |vs| - 1;
      TagOfLast(vs[..n]);
      assert vs == vs[..n] + [vs[n]];
      LastNumberConcat(vs[..n], [vs[n]]);
      assert [vs[n]][1..] == [];
    }
  }

  /** COUNT and SUM over any values. */
  lemma {:induction false} GetMeans(vs: seq<SValue>)
    ensures Get(Fold(Init(COUNT), vs)) == Integer(CountOf(vs))
    ensures Get(Fold(Init(SUM), vs)) == SumResult(vs)
  {
    FoldMeans(Init(COUNT), vs);
    FoldMeans(Init(SUM), vs);
    TagOfLast(vs);
  }

  /** SUM over floating point numbers is their sum, NULL when there is nothing to add. */
  lemma {:induction false} SumOfFloats(vs: seq<SValue>)
    requires forall k :: 0 <= k < |vs| ==> vs[k].Null? || vs[k].Float?
    ensures Get(Fold(Init(SUM), vs)) == if CountOf(vs) == 0 then Null else Float(SumOf(vs))
  {
    GetMeans(vs);
    LastOfFloats(vs);
  }

  lemma {:induction false} LastOfFloats(vs: seq<SValue>)
    requires forall k :: 0 <= k < |vs| ==> vs[k].Null? || vs[k].Float?
    ensures if CountOf(vs) == 0 then LastNumber(vs).None? else LastNumber(vs).Some? && LastNumber(vs).value.Float?
  {
    if vs != [] {
      LastOfFloats(vs[1..]);
    }
  }

  function IntegerSum(vs: seq<SValue>): int {
    if vs == [] then 0 else (if vs[0].Integer? then vs[0].i else 0) + IntegerSum(vs[1..])
  }

  lemma {:induction false} SumIsIntegerSum(vs: seq<SValue>)
    requires forall k :: 0 <= k < |vs| ==> vs[k].Null? || vs[k].Integer?
    ensures SumOf(vs) == IntegerSum(vs) as real
  {
    if vs != [] {
      SumIsIntegerSum(vs[1..]);
    }
  }

  lemma {:induction false} LastOfIntegers(vs: seq<SValue>)
    requires forall k :: 0 <= k < |vs| ==> vs[k].Null? || vs[k].Integer?
    ensures if CountOf(vs) == 0 then LastNumber(vs).None? else LastNumber(vs).Some? && LastNumber(vs).value.Integer?
  {
    if vs != [] {
      LastOfIntegers(vs[1..]);
    }
  }

  lemma {:induction false} TruncateInteger(k: int)
    ensures Truncate(k as real) == k
  {
    assert -(k as real) == (-k) as real;
  }

  /** SUM over integers is the integer sum, NULL when there is nothing to add. */
  lemma {:induction false} SumOfIntegers(vs: seq<SValue>)
    requires forall k :: 0 <= k < |vs| ==> vs[k].Null? || vs[k].Integer?
    ensures Get(Fold(Init(SUM), vs)) == if CountOf(vs) == 0 then Null else Integer(IntegerSum(vs))
  {
    GetMeans(vs);
    LastOfIntegers(vs);
    SumIsIntegerSum(vs);
    TruncateInteger(IntegerSum(vs));
  }

  lemma {:induction false} FoldAppend(p: Pad, vs: seq<SValue>, v: SValue)
    ensures Fold(p, vs + [v]) == Accumulate(Fold(p, vs), v)
  {
    assert (vs + [v])[..|vs|] == vs;
  }
}
