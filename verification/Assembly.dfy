/**
  Rebuilding a record from one column: each entry names, by repetition level, the parents
  it belongs to; they are found or created in the record built so far. The module gives the
  meaning of that process and proves that a column adds exactly its part of the record.
  */
module Assembly {
  import opened Wrappers
  import opened Messages
  import opened Columns
  import opened Shredding

  /** An object on the way to a leaf, with the definition level from which it exists. */
  datatype Parent = Parent(id: nat, repeated: bool, dMax: nat)

  function Parents(path: Path, d: nat): seq<Parent>
    decreases |path|
  {
    if |path| <= 1 then []
    else [Parent(path[0].id, path[0].repeated, DefIn(path[0], d))] + Parents(path[1..], DefIn(path[0], d))
  }

  /** Number of repeated fields on a path. */
  function Reps(path: Path): nat {
    if path == [] then 0 else (if path[0].repeated then 1 else 0) + Reps(path[1..])
  }

  // ------------------------------------------------------------------
  // Placing children
  // ------------------------------------------------------------------

  /** Index of the n-th child with an id, or the length if there is none. */
  function Position(ms: seq<Message>, id: nat, n: nat): (p: nat)
    ensures p <= |ms|
    ensures p < |ms| <==> n < |Occ(ms, id)|
    ensures p < |ms| ==> ms[p].id == id && |Occ(ms[..p], id)| == n
  {
    if ms == [] then 0
    else if ms[0].id == id then
      if n == 0 then 0
      else
        var p := Position(ms[1..], id, n - 1);
        assert p < |ms[1..]| ==> ms[..p + 1][1..] == ms[1..][..p];
        p + 1
    else
      var p := Position(ms[1..], id, n);
      assert p < |ms[1..]| ==> ms[..p + 1][1..] == ms[1..][..p];
      p + 1
  }

  function Kids(ms: seq<Message>, id: nat, n: nat): seq<Message> {
    var p := Position(ms, id, n);
    if p < |ms| && ms[p].Object? then ms[p].children else []
  }

  /** Fresh empty objects, appended while there are fewer than n children with the id. */
  function Pad(ms: seq<Message>, id: nat, n: nat): seq<Message> {
    ms + seq(if n > |Occ(ms, id)| then n - |Occ(ms, id)| else 0, _ => Object(id, []))
  }

  /** Give the n-th child with the id new children, creating it if necessary. */
  function Place(ms: seq<Message>, id: nat, n: nat, kids: seq<Message>): seq<Message> {
    var p := Position(ms, id, n);
    if p < |ms| then ms[p := Object(id, kids)]
    else Pad(ms, id, n) + [Object(id, kids)]
  }

  /** Placing changes one child and nothing with another id; no padding is needed as long as
      children are visited in order. */
  lemma {:induction false} PlaceOcc(ms: seq<Message>, id: nat, n: nat, kids: seq<Message>)
    requires n <= |Occ(ms, id)|
    ensures Pad(ms, id, n) == ms
    ensures Occ(Place(ms, id, n, kids), id)
            == if n < |Occ(ms, id)| then Occ(ms, id)[n := Object(id, kids)] else Occ(ms, id) + [Object(id, kids)]
    ensures forall other :: other != id ==> Occ(Place(ms, id, n, kids), other) == Occ(ms, other)
    ensures Kids(ms, id, n)
            == if n < |Occ(ms, id)| && Occ(ms, id)[n].Object? then Occ(ms, id)[n].children else []
  {
    var p := Position(ms, id, n);
    var m := Object(id, kids);
    if p < |ms| {
      OccUpdate(ms, p, m, id);
      forall other | other != id ensures Occ(ms[p := m], other) == Occ(ms, other) {
        OccUpdate(ms, p, m, other);
      }
    } else {
      assert Pad(ms, id, n) == ms;
      forall other ensures Occ(ms + [m], other) == Occ(ms, other) + (if other == id then [m] else []) {
        OccConcat(ms, [m], other);
        assert [m][1..] == [];
      }
    }
  }

  // ------------------------------------------------------------------
  // Feeding entries
  // ------------------------------------------------------------------

  /** Insert one entry below the parents, at the element numbers in `idx`. A null stops at the
      first parent it does not define; a value is appended as a new child. */
  function Insert(ms: seq<Message>, parents: seq<Parent>, idx: seq<nat>, leaf: nat, e: Entry): seq<Message>
    decreases |parents|
  {
    if parents == [] then
      if e.value.Some? then ms + [Value(leaf, e.value.value)] else ms
    else if e.value.None? && parents[0].dMax > e.d then ms
    else
      var p := parents[0];
      var n := if p.repeated && idx != [] then idx[0] else 0;
      var rest := if p.repeated && idx != [] then idx[1..] else idx;
      Place(ms, p.id, n, Insert(Kids(ms, p.id, n), parents[1..], rest, leaf, e))
  }

  /** Element numbers after an entry repeating at level k: count it, restart below it. */
  function Bump(idx: seq<nat>, k: nat): (b: seq<nat>)
    ensures |b| == |idx|
  {
    if 0 < k <= |idx| then idx[..k - 1] + [idx[k - 1] + 1] + Zeros(|idx| - k) else Zeros(|idx|)
  }

  datatype State = State(idx: seq<nat>, out: seq<Message>)

  /** One entry, seen from below the fields that repeat at level `base`. */
  function Step(path: Path, base: nat, d: nat, s: State, e: Entry): State
    requires path != []
  {
    var idx := Bump(s.idx, if e.r > base then e.r - base else 0);
    State(idx, Insert(s.out, Parents(path, d), idx, path[|path| - 1].id, e))
  }

  function Feed(path: Path, base: nat, d: nat, s: State, es: seq<Entry>): State
    requires path != []
    decreases |es|
  {
    if es == [] then s else Feed(path, base, d, Step(path, base, d, s, es[0]), es[1..])
  }

  lemma {:induction false} FeedConcat(path: Path, base: nat, d: nat, s: State, a: seq<Entry>, b: seq<Entry>)
    requires path != []
    ensures Feed(path, base, d, s, a + b) == Feed(path, base, d, Feed(path, base, d, s, a), b)
    decreases |a|
  {
    if a == [] {
      assert a + b == b;
    } else {
      assert (a + b)[1..] == a[1..] + b;
      FeedConcat(path, base, d, Step(path, base, d, s, a[0]), a[1..], b);
    }
  }

  lemma {:induction false} FeedOne(path: Path, base: nat, d: nat, s: State, e: Entry)
    requires path != []
    ensures Feed(path, base, d, s, [e]) == Step(path, base, d, s, e)
  {
    assert [e][1..] == [];
    assert Feed(path, base, d, Step(path, base, d, s, e), [e][1..]) == Step(path, base, d, s, e);
  }

  // ------------------------------------------------------------------
  // What has been assembled from a set of columns
  // ------------------------------------------------------------------

  /** The columns below a field, as paths from that field. */
  ghost function Below(cols: set<Path>, f: Field): set<Path> {
    set p | p in cols && p != [] && p[0] == f :: p[1..]
  }

  lemma {:induction false} BelowMember(cols: set<Path>, f: Field, q: Path)
    ensures q in Below(cols, f) <==> [f] + q in cols
  {
    if [f] + q in cols {
      assert ([f] + q)[1..] == q;
    }
    if q in Below(cols, f) {
      var p :| p in cols && p != [] && p[0] == f && p[1..] == q;
      assert p == [f] + q;
    }
  }

  predicate HasId(fields: seq<Field>, id: nat) {
    exists i :: 0 <= i < |fields| && fields[i].id == id
  }

  /**
    `out` is the part of record `ms` that the columns in `cols` determine. A field none of
    whose columns is included is absent; otherwise its occurrences are those of the record,
    in order, each with what the columns determine of it.
    */
  ghost predicate Matches(out: seq<Message>, fields: seq<Field>, cols: set<Path>, ms: seq<Message>)
    decreases fields
  {
    && (forall id :: !HasId(fields, id) ==> Occ(out, id) == [])
    && (forall i :: 0 <= i < |fields| ==>
          MatchesField(Occ(out, fields[i].id), fields[i], Below(cols, fields[i]), Occ(ms, fields[i].id)))
  }

  ghost predicate MatchesField(outs: seq<Message>, f: Field, cols: set<Path>, occ: seq<Message>)
    decreases f, 1
  {
    if cols == {} then outs == []
    else |outs| == |occ| && forall k :: 0 <= k < |occ| ==> MatchesElem(outs[k], f, cols, occ[k])
  }

  ghost predicate MatchesElem(out: Message, f: Field, cols: set<Path>, o: Message)
    decreases f, 0
  {
    match f
    case LeafField(_, _, _, _, kind) =>
      o.Value? && out.Value? && Stored(kind, o.scalar) == Some(out.scalar)
    case ObjectField(_, _, _, _, fields) =>
      o.Object? && out.Object? && Matches(out.children, fields, cols, o.children)
  }

  lemma {:induction false} MatchesNothing(fields: seq<Field>, ms: seq<Message>)
    ensures Matches([], fields, {}, ms)
  {
    forall i | 0 <= i < |fields| ensures MatchesField(Occ([], fields[i].id), fields[i], Below({}, fields[i]), Occ(ms, fields[i].id)) {
      assert Below({}, fields[i]) == {};
    }
  }

  /** All columns in a set are leaves of the schema. */
  ghost predicate ArePaths(fields: seq<Field>, cols: set<Path>) {
    forall p :: p in cols ==> IsPath(fields, p)
  }

  // ------------------------------------------------------------------
  // One column adds exactly its part
  // ------------------------------------------------------------------

  /** While the entries stay inside element n of the first field of the path, feeding them is
      feeding its children. */
  lemma {:induction false} Focus(path: Path, base: nat, d: nat, s: State, n: nat, es: seq<Entry>)
    requires |path| > 1
    requires n < |Occ(s.out, path[0].id)|
    requires path[0].repeated ==> s.idx != [] && s.idx[0] == n
    requires !path[0].repeated ==> n == 0
    requires forall e :: e in es ==> e.d >= DefIn(path[0], d)
    requires forall e :: e in es ==> RepIn(path[0], base) < e.r <= base + |s.idx|
    ensures var f := path[0];
            var inner := Feed(path[1..], RepIn(f, base), DefIn(f, d),
                              State(if f.repeated then s.idx[1..] else s.idx, Kids(s.out, f.id, n)), es);
            var after := Feed(path, base, d, s, es);
            && after.idx == (if f.repeated then [n] else []) + inner.idx
            && (es != [] ==> after.out == Place(s.out, f.id, n, inner.out))
    decreases |es|
  {
    if es != [] {
      var f, e := path[0], es[0];
      var sub := State(if f.repeated then s.idx[1..] else s.idx, Kids(s.out, f.id, n));
      var next := Step(path, base, d, s, e);
      var subNext := Step(path[1..], RepIn(f, base), DefIn(f, d), sub, e);
      StepInside(path, base, d, s, n, e);
      PlaceOcc(s.out, f.id, n, subNext.out);
      PlaceTwice(s.out, f.id, n, subNext.out);
      Focus(path, base, d, next, n, es[1..]);
    } else if path[0].repeated {
      assert s.idx == [n] + s.idx[1..];
    } else {
      assert s.idx == [] + s.idx;
    }
  }

  lemma {:induction false} StepInside(path: Path, base: nat, d: nat, s: State, n: nat, e: Entry)
    requires |path| > 1
    requires path[0].repeated ==> s.idx != [] && s.idx[0] == n
    requires !path[0].repeated ==> n == 0
    requires e.d >= DefIn(path[0], d) && RepIn(path[0], base) < e.r <= base + |s.idx|
    ensures var f := path[0];
            var inner := Step(path[1..], RepIn(f, base), DefIn(f, d),
                              State(if f.repeated then s.idx[1..] else s.idx, Kids(s.out, f.id, n)), e);
            var next := Step(path, base, d, s, e);
            && |next.idx| == |s.idx|
            && (if f.repeated then next.idx[0] == n && next.idx[1..] == inner.idx else next.idx == inner.idx)
            && next.out == Place(s.out, f.id, n, inner.out)
  {
    BumpTail(s.idx, path[0].repeated, e.r - base);
    assert Parents(path, d)[1..] == Parents(path[1..], DefIn(path[0], d));
  }

  lemma {:induction false} BumpTail(idx: seq<nat>, repeated: bool, k: nat)
    requires 0 < k <= |idx|
    requires repeated ==> k > 1
    ensures repeated ==> idx != [] && Bump(idx, k)[0] == idx[0] && Bump(idx, k)[1..] == Bump(idx[1..], k - 1)
  {
  }

  lemma {:induction false} PlaceTwice(ms: seq<Message>, id: nat, n: nat, kids: seq<Message>)
    requires n <= |Occ(ms, id)|
    ensures forall more :: Place(Place(ms, id, n, kids), id, n, more) == Place(ms, id, n, more)
    ensures Kids(Place(ms, id, n, kids), id, n) == kids
  {
    PlaceOcc(ms, id, n, kids);
    var p := Position(ms, id, n);
    var m := Object(id, kids);
    var placed := Place(ms, id, n, kids);
    assert p < |placed| && placed[p] == m && placed[..p] == ms[..p];
    assert Pad(ms, id, n) == ms;
    PositionUnique(placed, id, n, p);
  }

  lemma {:induction false} PositionUnique(ms: seq<Message>, id: nat, n: nat, p: nat)
    requires p < |ms| && ms[p].id == id && |Occ(ms[..p], id)| == n
    ensures Position(ms, id, n) == p
  {
    var q := Position(ms, id, n);
    OccUpdate(ms, p, ms[p], id);
    if q < p {
      assert ms[..p] == ms[..q] + ([ms[q]] + ms[q + 1..p]);
      OccConcat(ms[..q], [ms[q]] + ms[q + 1..p], id);
    } else if p < q {
      assert ms[..q] == ms[..p] + ([ms[p]] + ms[p + 1..q]);
      OccConcat(ms[..p], [ms[p]] + ms[p + 1..q], id);
    }
  }

  lemma {:induction false} MaxRepIs(path: Path, base: nat)
    ensures MaxRep(path, base) == base + Reps(path)
    decreases |path|
  {
    if path != [] {
      MaxRepIs(path[1..], RepIn(path[0], base));
    }
  }

  /** Feeding the entries of element n is feeding its children from a fresh position. */
  lemma {:induction false} FeedElem(path: Path, base: nat, d: nat, s: State, n: nat, es: seq<Entry>)
    requires |path| > 1 && |s.idx| == Reps(path) && n <= |Occ(s.out, path[0].id)|
    requires es != [] && es[0].r <= RepIn(path[0], base)
    requires n == 0 ==> es[0].r <= base
    requires n > 0 ==> path[0].repeated && s.idx[0] == n - 1 && es[0].r == base + 1
    requires forall e :: e in es ==> e.d >= DefIn(path[0], d)
    requires forall e :: e in es[1..] ==> RepIn(path[0], base) < e.r <= base + |s.idx|
    ensures var f := path[0];
            var inner := Feed(path[1..], RepIn(f, base), DefIn(f, d),
                              State(Zeros(Reps(path[1..])), Kids(s.out, f.id, n)), es);
            var after := Feed(path, base, d, s, es);
            && |after.idx| == |s.idx|
            && (f.repeated ==> after.idx[0] == n)
            && after.out == Place(s.out, f.id, n, inner.out)
  {
    var f, e := path[0], es[0];
    var sub := State(Zeros(Reps(path[1..])), Kids(s.out, f.id, n));
    var next := Step(path, base, d, s, e);
    var subNext := Step(path[1..], RepIn(f, base), DefIn(f, d), sub, e);
    assert Reps(path) == (if f.repeated then 1 else 0) + Reps(path[1..]);
    assert subNext.idx == Zeros(Reps(path[1..]));
    if f.repeated {
      assert next.idx[0] == n && next.idx[1..] == subNext.idx;
    } else {
      assert next.idx == subNext.idx;
    }
    assert Parents(path, d)[1..] == Parents(path[1..], DefIn(f, d));
    assert next.out == Place(s.out, f.id, n, subNext.out);
    PlaceOcc(s.out, f.id, n, subNext.out);
    PlaceTwice(s.out, f.id, n, subNext.out);
    Focus(path, base, d, next, n, es[1..]);
    FeedLength(path[1..], RepIn(f, base), DefIn(f, d), subNext, es[1..]);
  }

  lemma {:induction false} FeedLength(path: Path, base: nat, d: nat, s: State, es: seq<Entry>)
    requires path != []
    ensures |Feed(path, base, d, s, es).idx| == |s.idx|
    decreases |es|
  {
    if es != [] {
      FeedLength(path, base, d, Step(path, base, d, s, es[0]), es[1..]);
    }
  }

  /** The first n occurrences of a field have received the column at `tail`, the others not yet. */
  ghost predicate Partial(outs: seq<Message>, f: Field, cols: set<Path>, tail: Path, occ: seq<Message>, n: nat) {
    && n <= |occ|
    && |outs| == (if cols == {} then n else |occ|)
    && forall k :: 0 <= k < |outs| ==> MatchesElem(outs[k], f, if k < n then cols + {tail} else cols, occ[k])
  }

  /** The path of a column that is not loaded yet, from the field it starts with. */
  ghost predicate Loadable(path: Path, cols: set<Path>) {
    && path != [] && path[1..] !in cols
    && match path[0] {
         case LeafField(_, _, _, _, _) => |path| == 1 && cols == {}
         case ObjectField(_, _, _, _, fields) =>
           |path| > 1 && IsPath(fields, path[1..]) && ArePaths(fields, cols) && DistinctIds(fields)
       }
  }

  /** Only children with one id have changed. */
  ghost predicate OnlyId(before: seq<Message>, after: seq<Message>, id: nat) {
    forall other :: other != id ==> Occ(after, other) == Occ(before, other)
  }

  lemma {:induction false} PlaceOnlyId(ms: seq<Message>, id: nat, n: nat, kids: seq<Message>)
    requires n <= |Occ(ms, id)|
    ensures OnlyId(ms, Place(ms, id, n, kids), id)
  {
    PlaceOcc(ms, id, n, kids);
  }

  lemma {:induction false} LoadElem(
      path: Path, cols: set<Path>, r: nat, base: nat, d: nat, occ: seq<Message>, n: nat, s: State)
    requires Loadable(path, cols) && |s.idx| == Reps(path) && n < |occ|
    requires forall k :: 0 <= k < |occ| ==> ConformsElem(path[0], occ[k], true)
    requires Partial(Occ(s.out, path[0].id), path[0], cols, path[1..], occ, n)
    requires n == 0 ==> r <= base
    requires n > 0 ==> path[0].repeated && s.idx[0] == n - 1 && r == base + 1
    ensures var f := path[0];
            var after := Feed(path, base, d, s, ElemBlock(path, r, RepIn(f, base), DefIn(f, d), occ[n]));
            && |after.idx| == |s.idx| && (f.repeated ==> after.idx[0] == n)
            && Partial(Occ(after.out, f.id), f, cols, path[1..], occ, n + 1)
            && OnlyId(s.out, after.out, f.id)
    decreases |path|, 0, 0
  {
    var f := path[0];
    var outs := Occ(s.out, f.id);
    var block := ElemBlock(path, r, RepIn(f, base), DefIn(f, d), occ[n]);
    var after := Feed(path, base, d, s, block);
    assert ConformsElem(f, occ[n], true);
    if f.LeafField? {
      var v := Value(f.id, Stored(f.kind, occ[n].scalar).value);
      assert path[1..] == [] && Reps(path) == if f.repeated then 1 else 0;
      FeedOne(path, base, d, s, Entry(r, DefIn(f, d), Some(v.scalar)));
      assert after.out == s.out + [v];
      OccConcat(s.out, [v], f.id);
      assert [v][1..] == [];
      forall other | other != f.id ensures Occ(after.out, other) == Occ(s.out, other) {
        OccConcat(s.out, [v], other);
      }
    } else {
      var kids := Kids(s.out, f.id, n);
      var start := State(Zeros(Reps(path[1..])), kids);
      PlaceOcc(s.out, f.id, n, []);
      BlockWellFormed(f.fields, path[1..], r, RepIn(f, base), DefIn(f, d), occ[n].children);
      MaxRepIs(path[1..], RepIn(f, base));
      FeedElem(path, base, d, s, n, block);
      if n < |outs| {
        assert MatchesElem(outs[n], f, cols, occ[n]);
      } else {
        MatchesNothing(f.fields, occ[n].children);
      }
      LoadBlock(f.fields, path[1..], cols, r, RepIn(f, base), DefIn(f, d), occ[n].children, start);
      var inner := Feed(path[1..], RepIn(f, base), DefIn(f, d), start, block);
      PlaceOcc(s.out, f.id, n, inner.out);
      PlaceOnlyId(s.out, f.id, n, inner.out);
      assert MatchesElem(Object(f.id, inner.out), f, cols + {path[1..]}, occ[n]);
    }
  }

  lemma {:induction false} LoadOcc(
      path: Path, cols: set<Path>, r: nat, base: nat, d: nat, occ: seq<Message>, n: nat, s: State)
    requires Loadable(path, cols) && |s.idx| == Reps(path) && n <= |occ|
    requires !path[0].repeated ==> |occ| <= 1
    requires forall k :: 0 <= k < |occ| ==> ConformsElem(path[0], occ[k], true)
    requires Partial(Occ(s.out, path[0].id), path[0], cols, path[1..], occ, n)
    requires n == 0 ==> r <= base
    requires 0 < n < |occ| ==> path[0].repeated && s.idx[0] == n - 1 && r == base + 1
    ensures var f := path[0];
            var after := Feed(path, base, d, s, OccBlock(path, r, RepIn(f, base), DefIn(f, d), occ[n..]));
            && |after.idx| == |s.idx|
            && Partial(Occ(after.out, f.id), f, cols, path[1..], occ, |occ|)
            && OnlyId(s.out, after.out, f.id)
    decreases |path|, 0, |occ| - n + 1
  {
    hide Step, Insert, Parents, IsPath, ArePaths, DistinctIds, ConformsElem, Occ;
    if n == |occ| {
      assert occ[n..] == [];
    } else {
      hide Feed, ElemBlock, OccBlock, Partial, OnlyId, Place, Kids;
      var f := path[0];
      var first := ElemBlock(path, r, RepIn(f, base), DefIn(f, d), occ[n]);
      var rest := OccBlock(path, RepIn(f, base), RepIn(f, base), DefIn(f, d), occ[n + 1..]);
      OccBlockSplit(path, r, RepIn(f, base), DefIn(f, d), occ, n);
      FeedConcat(path, base, d, s, first, rest);
      LoadElem(path, cols, r, base, d, occ, n, s);
      var next := Feed(path, base, d, s, first);
      LoadOcc(path, cols, RepIn(f, base), base, d, occ, n + 1, next);
      OnlyIdTwice(s.out, next.out, Feed(path, base, d, next, rest).out, f.id);
    }
  }

  lemma {:induction false} OnlyIdTwice(a: seq<Message>, b: seq<Message>, c: seq<Message>, id: nat)
    requires OnlyId(a, b, id) && OnlyId(b, c, id)
    ensures OnlyId(a, c, id)
  {
    hide Occ;
  }

  lemma {:induction false} OccBlockSplit(path: Path, r: nat, rmax: nat, d: nat, occ: seq<Message>, n: nat)
    requires path != [] && n < |occ|
    ensures OccBlock(path, r, rmax, d, occ[n..])
            == ElemBlock(path, r, rmax, d, occ[n]) + OccBlock(path, rmax, rmax, d, occ[n + 1..])
  {
    assert occ[n..][1..] == occ[n + 1..];
  }

  /**
    Loading one more column of a record: what was assembled from `cols` becomes what
    is assembled from `cols` and the new one. Nothing is said about the order in which the
    columns in `cols` were loaded.
    */
  lemma {:induction false} LoadBlock(
      fields: seq<Field>, path: Path, cols: set<Path>, r: nat, base: nat, d: nat, ms: seq<Message>, s: State)
    requires IsPath(fields, path) && DistinctIds(fields) && Conforms(fields, ms, true)
    requires ArePaths(fields, cols) && path !in cols
    requires r <= base && |s.idx| == Reps(path)
    requires Matches(s.out, fields, cols, ms)
    ensures Matches(Feed(path, base, d, s, Block(path, r, base, d, ms)).out, fields, cols + {path}, ms)
    decreases |path|, 1, 0
  {
    var f := path[0];
    var i :| 0 <= i < |fields| && fields[i] == f;
    var occ, outs := Occ(ms, f.id), Occ(s.out, f.id);
    var below := Below(cols, f);
    var after := Feed(path, base, d, s, Block(path, r, base, d, ms));
    assert ConformsField(f, occ, true);
    assert MatchesField(outs, f, below, occ);
    BelowPaths(fields, cols, path);
    if occ == [] {
      FeedOne(path, base, d, s, Entry(r, d, None));
      assert after.out == s.out;
    } else {
      assert occ[0..] == occ;
      LoadOcc(path, below, r, base, d, occ, 0, s);
    }
    MatchesAfter(fields, i, path, cols, ms, s.out, after.out);
  }

  lemma {:induction false} BelowPlus(cols: set<Path>, path: Path, f: Field)
    requires path != []
    ensures f == path[0] ==> Below(cols + {path}, f) == Below(cols, f) + {path[1..]}
    ensures f != path[0] ==> Below(cols + {path}, f) == Below(cols, f)
  {
    assert path == [path[0]] + path[1..];
    forall q ensures q in Below(cols + {path}, f) <==> q in Below(cols, f) || (f == path[0] && q == path[1..]) {
      BelowMember(cols + {path}, f, q);
      BelowMember(cols, f, q);
      assert ([f] + q)[0] == f && ([f] + q)[1..] == q;
    }
  }

  /** The columns below the first field of a column that is still to be loaded. */
  lemma {:induction false} BelowPaths(fields: seq<Field>, cols: set<Path>, path: Path)
    requires IsPath(fields, path) && DistinctIds(fields) && ArePaths(fields, cols) && path !in cols
    ensures Loadable(path, Below(cols, path[0]))
  {
    assert path == [path[0]] + path[1..];
    BelowMember(cols, path[0], path[1..]);
    forall q | q in Below(cols, path[0])
      ensures path[0].ObjectField? ==> IsPath(path[0].fields, q)
      ensures path[0].LeafField? ==> q == []
    {
      BelowMember(cols, path[0], q);
      assert IsPath(fields, [path[0]] + q);
      assert ([path[0]] + q)[1..] == q;
    }
  }

  lemma {:induction false} MatchesAfter(fields: seq<Field>, i: nat, path: Path, cols: set<Path>, ms: seq<Message>,
                     before: seq<Message>, after: seq<Message>)
    requires i < |fields| && IsPath(fields, path) && path[0] == fields[i]
    requires DistinctIds(fields) && ArePaths(fields, cols) && path !in cols
    requires Matches(before, fields, cols, ms)
    requires OnlyId(before, after, path[0].id)
    requires var occ := Occ(ms, path[0].id);
             Partial(Occ(after, path[0].id), path[0], Below(cols, path[0]), path[1..], occ, |occ|)
    ensures Matches(after, fields, cols + {path}, ms)
  {
    forall id | !HasId(fields, id) ensures Occ(after, id) == [] {
      assert fields[i].id == path[0].id;
      assert Occ(after, id) == Occ(before, id);
    }
    forall j | 0 <= j < |fields|
      ensures MatchesField(Occ(after, fields[j].id), fields[j], Below(cols + {path}, fields[j]), Occ(ms, fields[j].id))
    {
      BelowPlus(cols, path, fields[j]);
      if j == i {
        PartialIsAll(Occ(after, path[0].id), path[0], Below(cols, path[0]), path[1..], Occ(ms, path[0].id));
      } else {
        assert fields[j].id != path[0].id;
        assert Occ(after, fields[j].id) == Occ(before, fields[j].id);
        assert MatchesField(Occ(before, fields[j].id), fields[j], Below(cols, fields[j]), Occ(ms, fields[j].id));
      }
    }
  }

  lemma {:induction false} PartialIsAll(outs: seq<Message>, f: Field, cols: set<Path>, tail: Path, occ: seq<Message>)
    requires Partial(outs, f, cols, tail, occ, |occ|)
    ensures MatchesField(outs, f, cols + {tail}, occ)
  {
    assert tail in cols + {tail};
  }
}
