/**
  The record model of `stx/protobuf`: a message is a tree of children tagged with a
  field id, a schema is a tree of fields, and the scalar accessors convert between kinds.
  */
module Messages {
  import opened Wrappers

  type uint32 = n: nat | n < 0x1_0000_0000
  type uint64 = n: nat | n < 0x1_0000_0000_0000_0000

  datatype Kind = STRING | UINT32 | UINT64 | DATETIME | DOUBLE | BOOLEAN

  /** Doubles are kept as their 64 bits: they are only ever stored and read back. */
  datatype Scalar =
    | Str(text: string)
    | U32(n32: uint32)
    | U64(n64: uint64)
    | Time(micros: uint64)
    | Dbl(bits: uint64)
    | Bool(flag: bool)

  datatype Field =
    | LeafField(id: nat, name: string, repeated: bool, optional: bool, kind: Kind)
    | ObjectField(id: nat, name: string, repeated: bool, optional: bool, fields: seq<Field>)

  datatype Message =
    | Value(id: nat, scalar: Scalar)
    | Object(id: nat, children: seq<Message>)

  /** A column is named by the fields on the way from the root to its leaf. */
  type Path = seq<Field>

  predicate HasKind(kind: Kind, v: Scalar) {
    match kind
    case STRING => v.Str?
    case UINT32 => v.U32?
    case UINT64 => v.U64?
    case DATETIME => v.Time?
    case DOUBLE => v.Dbl?
    case BOOLEAN => v.Bool?
  }

  /** The number that a scalar denotes. */
  function Number(v: Scalar): Option<nat> {
    match v
    case U32(n) => Some(n)
    case U64(n) => Some(n)
    case Time(micros) => Some(micros)
    case _ => None
  }

  /** The scalars that the column of a kind takes: its own, and some numbers. */
  predicate CanConvert(kind: Kind, v: Scalar) {
    || HasKind(kind, v)
    || (v.U32? && (kind == UINT64 || kind == DATETIME || kind == BOOLEAN))
    || (v.U64? && (kind == UINT32 || kind == DATETIME))
    || (v.Time? && kind == UINT64)
  }

  /** What is kept of a scalar in a column: a scalar of the column's own kind as it is, a number as
      the same number, in 32 bits modulo 2^32, and in a boolean whether it is positive. */
  predicate Keeps(kind: Kind, v: Scalar, kept: Scalar) {
    && HasKind(kind, kept)
    && (HasKind(kind, v) ==> kept == v)
    && (Number(v).Some? && kind == UINT32 ==> Number(kept) == Some(Number(v).value % 0x1_0000_0000))
    && (Number(v).Some? && (kind == UINT64 || kind == DATETIME) ==> Number(kept) == Number(v))
    && (Number(v).Some? && kind == BOOLEAN ==> kept == Bool(Number(v).value > 0))
  }

  /** What a scalar becomes when it is written through the accessor of a column kind and read
      back. None stands for the type error the accessor raises. */
  function Stored(kind: Kind, v: Scalar): (r: Option<Scalar>)
    ensures r.Some? <==> CanConvert(kind, v)
    ensures r.Some? ==> Keeps(kind, v, r.value)
  {
    match kind
    case STRING => if v.Str? then Some(v) else None
    case UINT32 =>
      if v.U32? then Some(v)
      else if v.U64? then Some(U32(v.n64 % 0x1_0000_0000))
      else None
    case UINT64 =>
      if v.U64? then Some(v)
      else if v.U32? then Some(U64(v.n32))
      else if v.Time? then Some(U64(v.micros))
      else None
    case DATETIME =>
      if v.Time? then Some(v)
      else if v.U32? then Some(Time(v.n32))
      else if v.U64? then Some(Time(v.n64))
      else None
    case DOUBLE => if v.Dbl? then Some(v) else None
    case BOOLEAN =>
      if v.Bool? then Some(v)
      else if v.U32? then Some(Bool(v.n32 > 0))
      else None
  }

  /** Nothing else is kept of it: what is stored is determined. */
  lemma {:induction false} KeptIsStored(kind: Kind, v: Scalar, kept: Scalar)
    requires CanConvert(kind, v) && Keeps(kind, v, kept)
    ensures Stored(kind, v) == Some(kept)
  {
  }

  /** The children with a given id, in order. */
  function Occ(ms: seq<Message>, id: nat): seq<Message> {
    if ms == [] then []
    else (if ms[0].id == id then [ms[0]] else []) + Occ(ms[1..], id)
  }

  lemma {:induction false} OccConcat(a: seq<Message>, b: seq<Message>, id: nat)
    ensures Occ(a + b, id) == Occ(a, id) + Occ(b, id)
  {
    if a == [] {
      assert a + b == b;
    } else {
      assert (a + b)[1..] == a[1..] + b && (a + b)[0] == a[0];
      OccConcat(a[1..], b, id);
      if a[0].id == id {
        assert Occ(a, id) == [a[0]] + Occ(a[1..], id);
      } else {
        assert Occ(a, id) == Occ(a[1..], id);
      }
    }
  }

  lemma {:induction false} OccIds(ms: seq<Message>, id: nat)
    ensures forall m :: m in Occ(ms, id) ==> m.id == id && m in ms
  {
    if ms != [] {
      OccIds(ms[1..], id);
    }
  }

  /** Replacing a child by one with the same id changes only its own entry in `Occ`. */
  lemma {:induction false} OccUpdate(ms: seq<Message>, p: nat, m: Message, id: nat)
    requires p < |ms| && ms[p].id == m.id
    ensures |Occ(ms[..p], id)| <= |Occ(ms, id)|
    ensures id == m.id ==>
              && |Occ(ms[..p], id)| < |Occ(ms, id)|
              && Occ(ms, id)[|Occ(ms[..p], id)|] == ms[p]
              && Occ(ms[p := m], id) == Occ(ms, id)[|Occ(ms[..p], id)| := m]
    ensures id != m.id ==> Occ(ms[p := m], id) == Occ(ms, id)
  {
    assert ms == ms[..p] + ([ms[p]] + ms[p + 1..]);
    assert ms[p := m] == ms[..p] + ([m] + ms[p + 1..]);
    OccConcat(ms[..p], [ms[p]] + ms[p + 1..], id);
    OccConcat(ms[..p], [m] + ms[p + 1..], id);
    assert ([ms[p]] + ms[p + 1..])[1..] == ms[p + 1..];
    assert ([m] + ms[p + 1..])[1..] == ms[p + 1..];
  }

  /** No two sibling fields share an id, at any depth. */
  ghost predicate DistinctIds(fields: seq<Field>)
    decreases fields
  {
    && (forall i, j :: 0 <= i < j < |fields| ==> fields[i].id != fields[j].id)
    && (forall i :: 0 <= i < |fields| && fields[i].ObjectField? ==> DistinctIds(fields[i].fields))
  }

  /** A path of the schema that ends in a leaf. */
  ghost predicate IsPath(fields: seq<Field>, path: Path)
    decreases |path|
  {
    && path != []
    && path[0] in fields
    && if path[0].LeafField? then |path| == 1
       else |path| > 1 && IsPath(path[0].fields, path[1..])
  }

  /**
    A record the schema admits. Scalars have a kind the column accepts, objects stand where
    objects are expected and required fields are present. With `once`, fields that are not
    repeated moreover occur at most once.
    */
  ghost predicate Conforms(fields: seq<Field>, ms: seq<Message>, once: bool)
    decreases fields
  {
    forall i :: 0 <= i < |fields| ==> ConformsField(fields[i], Occ(ms, fields[i].id), once)
  }

  ghost predicate ConformsField(f: Field, occ: seq<Message>, once: bool)
    decreases f, 1
  {
    && (!f.repeated && !f.optional ==> occ != [])
    && (once && !f.repeated ==> |occ| <= 1)
    && forall k :: 0 <= k < |occ| ==> ConformsElem(f, occ[k], once)
  }

  ghost predicate ConformsElem(f: Field, m: Message, once: bool)
    decreases f, 0
  {
    match f
    case LeafField(_, _, _, _, kind) => m.Value? && CanConvert(kind, m.scalar)
    case ObjectField(_, _, _, _, fields) =>
      fields != [] ==> m.Object? && Conforms(fields, m.children, once)
  }
}
